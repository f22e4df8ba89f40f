/**
 * Generic sequence operations that stand for pandas' row filters, group keys
 * and sort_values.
 */
module Seqs {

  /** Keeps the elements that satisfy `p`, in their original order (a boolean row mask). */
  function Filter<T>(s: seq<T>, p: T -> bool): (r: seq<T>)
    ensures |r| <= |s|
    ensures forall x :: x in r ==> x in s && p(x)
    ensures forall x :: x in s && p(x) ==> x in r
  {
    if s == [] then []
    else (if p(s[0]) then [s[0]] else []) + Filter(s[1..], p)
  }

  /** Applies `f` to every element. */
  function MapSeq<T, U>(s: seq<T>, f: T -> U): (r: seq<U>)
    ensures |r| == |s|
    ensures forall i :: 0 <= i < |s| ==> r[i] == f(s[i])
  {
    seq(|s|, i requires 0 <= i < |s| => f(s[i]))
  }

  /** `a` can be obtained from `b` by deleting elements: same relative order. */
  predicate IsSubseq<T(==)>(a: seq<T>, b: seq<T>)
    decreases |b|
  {
    if a == [] then true
    else if b == [] then false
    else if a[0] == b[0] then IsSubseq(a[1..], b[1..])
    else IsSubseq(a, b[1..])
  }

  /** Filtering never reorders: the kept elements form a subsequence of the input. */
  lemma {:induction false} FilterIsSubseq<T>(s: seq<T>, p: T -> bool)
    ensures IsSubseq(Filter(s, p), s)
  {
    if s != [] {
      FilterIsSubseq(s[1..], p);
      if p(s[0]) {
        assert Filter(s, p) == [s[0]] + Filter(s[1..], p);
        assert Filter(s, p)[1..] == Filter(s[1..], p);
      } else {
        assert Filter(s, p) == Filter(s[1..], p);
        SubseqDropHead(Filter(s[1..], p), s);
      }
    }
  }

  /** A subsequence of the tail is a subsequence of the whole. */
  lemma {:induction false} SubseqDropHead<T>(a: seq<T>, b: seq<T>)
    requires b != [] && IsSubseq(a, b[1..])
    ensures IsSubseq(a, b)
    decreases |a| + |b|
  {
    if a != [] && a[0] == b[0] {
      SubseqTail(a, b[1..]);
    }
  }

  /** Dropping the first element of a subsequence keeps it a subsequence. */
  lemma {:induction false} SubseqTail<T>(a: seq<T>, c: seq<T>)
    requires a != [] && IsSubseq(a, c)
    ensures IsSubseq(a[1..], c)
    decreases |a| + |c|
  {
    assert c != [];
    if a[0] != c[0] {
      SubseqTail(a, c[1..]);
    }
    if a[1..] != [] {
      SubseqDropHead(a[1..], c);
    }
  }

  /** Filtering an already filtered sequence changes nothing. */
  lemma {:induction false} FilterIdempotent<T>(s: seq<T>, p: T -> bool)
    ensures Filter(Filter(s, p), p) == Filter(s, p)
  {
    FilterAllKept(Filter(s, p), p);
  }

  /** When every element passes, the filter is the identity. */
  lemma {:induction false} FilterAllKept<T>(s: seq<T>, p: T -> bool)
    requires forall x :: x in s ==> p(x)
    ensures Filter(s, p) == s
  {
    if s != [] {
      assert s[0] in s;
      FilterAllKept(s[1..], p);
      assert [s[0]] + s[1..] == s;
    }
  }

  /** When no element passes, the filter is empty. */
  lemma {:induction false} FilterNone<T>(s: seq<T>, p: T -> bool)
    requires forall x :: x in s ==> !p(x)
    ensures Filter(s, p) == []
  {
    if s != [] {
      assert s[0] in s;
      FilterNone(s[1..], p);
    }
  }

  /** Filtering by `p` first changes nothing when `q` already implies `p`. */
  lemma {:induction false} FilterNarrow<T>(s: seq<T>, p: T -> bool, q: T -> bool)
    requires forall x :: q(x) ==> p(x)
    ensures Filter(Filter(s, p), q) == Filter(s, q)
  {
    if s != [] {
      FilterNarrow(s[1..], p, q);
      if p(s[0]) {
        var fs := Filter(s, p);
        assert fs == [s[0]] + Filter(s[1..], p);
        assert fs[0] == s[0] && fs[1..] == Filter(s[1..], p);
        assert Filter(fs, q) == (if q(s[0]) then [s[0]] else []) + Filter(fs[1..], q);
        assert Filter(fs[1..], q) == Filter(s[1..], q);
      } else {
        assert !q(s[0]);
        assert Filter(s, p) == Filter(s[1..], p);
      }
    }
  }

  /** Filtering distributes over concatenation. */
  lemma {:induction false} FilterConcat<T>(a: seq<T>, b: seq<T>, p: T -> bool)
    ensures Filter(a + b, p) == Filter(a, p) + Filter(b, p)
  {
    if a == [] {
      assert a + b == b;
    } else {
      assert (a + b)[0] == a[0];
      assert (a + b)[1..] == a[1..] + b;
      FilterConcat(a[1..], b, p);
    }
  }

  /** Filtering one element more of a prefix appends it when it passes. */
  lemma FilterSnoc<T>(s: seq<T>, n: nat, p: T -> bool)
    requires n < |s|
    ensures Filter(s[..n + 1], p) == Filter(s[..n], p) + (if p(s[n]) then [s[n]] else [])
  {
    assert s[..n + 1] == s[..n] + [s[n]];
    FilterConcat(s[..n], [s[n]], p);
  }

  /** Mapping a function that leaves every element alone is the identity. */
  lemma MapIdentity<T>(s: seq<T>, f: T -> T)
    requires forall x :: x in s ==> f(x) == x
    ensures MapSeq(s, f) == s
  {
  }

  /** The elements are pairwise distinct. */
  predicate NoDup<T(==)>(s: seq<T>)
  {
    forall i, j :: 0 <= i < j < |s| ==> s[i] != s[j]
  }

  /** Filtering keeps distinct elements distinct. */
  lemma {:induction false} FilterNoDup<T>(s: seq<T>, p: T -> bool)
    requires NoDup(s)
    ensures NoDup(Filter(s, p))
  {
    if s != [] {
      assert NoDup(s[1..]) by {
        forall i, j | 0 <= i < j < |s[1..]| ensures s[1..][i] != s[1..][j] {
          assert s[1..][i] == s[i + 1] && s[1..][j] == s[j + 1];
        }
      }
      FilterNoDup(s[1..], p);
      var rest := Filter(s[1..], p);
      assert s[0] !in s[1..] by {
        forall j | 0 <= j < |s[1..]| ensures s[1..][j] != s[0] {
          assert s[1..][j] == s[j + 1];
        }
      }
      assert s[0] !in rest;
    }
  }

  /** The distinct elements, in order of first appearance. */
  function Dedup<T(==)>(s: seq<T>): (r: seq<T>)
    ensures forall x :: x in r ==> x in s
    ensures forall x :: x in s ==> x in r
    ensures NoDup(r)
    ensures |r| <= |s|
  {
    if s == [] then []
    else
      var d := Dedup(s[..|s| - 1]);
      assert s == s[..|s| - 1] + [s[|s| - 1]];
      if s[|s| - 1] in d then d else d + [s[|s| - 1]]
  }

  /** Number of elements that satisfy `p`. */
  function Count<T>(s: seq<T>, p: T -> bool): nat
  {
    |Filter(s, p)|
  }

  /** Sum of `f` over the sequence. */
  function Sum<T>(s: seq<T>, f: T -> real): real
  {
    if s == [] then 0.0 else f(s[0]) + Sum(s[1..], f)
  }

  /** Each term lies in [lo, hi], so the sum lies in [|s| * lo, |s| * hi]. */
  lemma {:induction false} SumBounds<T>(s: seq<T>, f: T -> real, lo: real, hi: real)
    requires forall i :: 0 <= i < |s| ==> lo <= f(s[i]) <= hi
    ensures |s| as real * lo <= Sum(s, f) <= |s| as real * hi
  {
    if s != [] {
      var tail := s[1..];
      assert forall i :: 0 <= i < |tail| ==> tail[i] == s[i + 1];
      SumBounds(tail, f, lo, hi);
      var n := |tail| as real;
      var a := f(s[0]);
      var b := Sum(tail, f);
      assert Sum(s, f) == a + b;
      assert lo <= a <= hi;
      assert n * lo <= b <= n * hi;
      assert |s| as real == n + 1.0;
      assert (n + 1.0) * lo == n * lo + lo;
      assert (n + 1.0) * hi == n * hi + hi;
    }
  }

  /** A sort key: a number, or a missing value (NaN), which pandas places last. */
  datatype Key = Val(v: real) | Missing

  /** `a` may precede `b`: numbers in the given direction, missing values after all numbers. */
  predicate KeyLe(a: Key, b: Key, ascending: bool)
  {
    match a
    case Missing => b.Missing?
    case Val(x) => b.Missing? || (if ascending then x <= b.v else x >= b.v)
  }

  lemma KeyLeTotal(a: Key, b: Key, ascending: bool)
    ensures KeyLe(a, b, ascending) || KeyLe(b, a, ascending)
  {
  }

  lemma KeyLeTransitive(a: Key, b: Key, c: Key, ascending: bool)
    requires KeyLe(a, b, ascending) && KeyLe(b, c, ascending)
    ensures KeyLe(a, c, ascending)
  {
  }

  /** Every pair of elements is in key order. */
  predicate SortedBy<T>(s: seq<T>, key: T -> Key, ascending: bool)
  {
    forall i, j :: 0 <= i < j < |s| ==> KeyLe(key(s[i]), key(s[j]), ascending)
  }

  /** Places `x` before the first element it may precede. */
  function Insert<T>(x: T, s: seq<T>, key: T -> Key, ascending: bool): seq<T>
  {
    if s == [] || KeyLe(key(x), key(s[0]), ascending) then [x] + s
    else [s[0]] + Insert(x, s[1..], key, ascending)
  }

  lemma {:induction false} InsertMultiset<T>(x: T, s: seq<T>, key: T -> Key, ascending: bool)
    ensures multiset(Insert(x, s, key, ascending)) == multiset(s) + multiset{x}
  {
    if s != [] && !KeyLe(key(x), key(s[0]), ascending) {
      InsertMultiset(x, s[1..], key, ascending);
      assert s == [s[0]] + s[1..];
    }
  }

  /** A key below `x` and below every element stays below every element after inserting `x`. */
  lemma {:induction false} InsertLowerBound<T>(x: T, s: seq<T>, key: T -> Key, ascending: bool, y: Key)
    requires KeyLe(y, key(x), ascending)
    requires forall j :: 0 <= j < |s| ==> KeyLe(y, key(s[j]), ascending)
    ensures forall j :: 0 <= j < |Insert(x, s, key, ascending)| ==> KeyLe(y, key(Insert(x, s, key, ascending)[j]), ascending)
  {
    if s != [] && !KeyLe(key(x), key(s[0]), ascending) {
      forall j | 0 <= j < |s[1..]| ensures KeyLe(y, key(s[1..][j]), ascending) {
        assert s[1..][j] == s[j + 1];
      }
      InsertLowerBound(x, s[1..], key, ascending, y);
      var t := Insert(x, s[1..], key, ascending);
      assert Insert(x, s, key, ascending) == [s[0]] + t;
    }
  }

  lemma {:induction false} InsertSorted<T>(x: T, s: seq<T>, key: T -> Key, ascending: bool)
    requires SortedBy(s, key, ascending)
    ensures SortedBy(Insert(x, s, key, ascending), key, ascending)
  {
    if s == [] {
    } else if KeyLe(key(x), key(s[0]), ascending) {
      forall j | 0 < j < |s| ensures KeyLe(key(x), key(s[j]), ascending) {
        KeyLeTransitive(key(x), key(s[0]), key(s[j]), ascending);
      }
    } else {
      var t := Insert(x, s[1..], key, ascending);
      InsertSorted(x, s[1..], key, ascending);
      KeyLeTotal(key(x), key(s[0]), ascending);
      forall j | 0 <= j < |s[1..]| ensures KeyLe(key(s[0]), key(s[1..][j]), ascending) {
        assert s[1..][j] == s[j + 1];
      }
      InsertLowerBound(x, s[1..], key, ascending, key(s[0]));
      var r := [s[0]] + t;
      forall i, j | 0 <= i < j < |r| ensures KeyLe(key(r[i]), key(r[j]), ascending) {
        if i == 0 {
          assert r[j] == t[j - 1];
        } else {
          assert r[i] == t[i - 1] && r[j] == t[j - 1];
        }
      }
    }
  }

  /**
   * The rows in key order (pandas sort_values; missing keys last). pandas'
   * default sort is not stable, so any order of equal keys is admissible;
   * this one is an insertion sort.
   */
  function SortByKey<T>(s: seq<T>, key: T -> Key, ascending: bool): (r: seq<T>)
    ensures multiset(r) == multiset(s)
    ensures SortedBy(r, key, ascending)
  {
    if s == [] then []
    else
      var t := SortByKey(s[1..], key, ascending);
      InsertMultiset(s[0], t, key, ascending);
      InsertSorted(s[0], t, key, ascending);
      assert s == [s[0]] + s[1..];
      Insert(s[0], t, key, ascending)
  }

  /** Sorting neither adds nor drops elements. */
  lemma SortedMember<T>(s: seq<T>, key: T -> Key, ascending: bool, x: T)
    ensures x in SortByKey(s, key, ascending) <==> x in s
  {
    assert x in multiset(SortByKey(s, key, ascending)) <==> x in multiset(s);
  }

  /** In a sorted sequence every element with a number precedes every element with a missing key. */
  lemma MissingLast<T>(s: seq<T>, key: T -> Key, ascending: bool, i: int, j: int)
    requires SortedBy(s, key, ascending)
    requires 0 <= i < |s| && 0 <= j < |s|
    requires key(s[i]).Val? && key(s[j]).Missing?
    ensures i < j
  {
  }

  /** A permutation of a sequence without duplicates has no duplicates. */
  lemma PermutationNoDup<T>(a: seq<T>, b: seq<T>)
    requires multiset(a) == multiset(b) && NoDup(a)
    ensures NoDup(b)
  {
    NoDupMultiplicity(a);
    forall i, j | 0 <= i < j < |b| && b[i] == b[j] ensures false {
      TwiceInMultiset(b, i, j);
    }
  }

  lemma {:induction false} NoDupMultiplicity<T>(s: seq<T>)
    requires NoDup(s)
    ensures forall x :: multiset(s)[x] <= 1
  {
    if s != [] {
      var t := s[..|s| - 1];
      assert s == t + [s[|s| - 1]];
      assert NoDup(t);
      NoDupMultiplicity(t);
      assert s[|s| - 1] !in t;
    }
  }

  lemma TwiceInMultiset<T>(s: seq<T>, i: int, j: int)
    requires 0 <= i < j < |s| && s[i] == s[j]
    ensures multiset(s)[s[i]] >= 2
  {
    assert s == s[..j] + s[j..];
    assert s[i] in s[..j];
    assert s[j] in s[j..];
    assert multiset(s) == multiset(s[..j]) + multiset(s[j..]);
  }
}
