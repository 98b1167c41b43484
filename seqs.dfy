/** List operations the Python code gets from the language: list
    comprehensions, `lst[:n]` and `lst.sort(key=...)`. */
module Seqs {

  /** `b` holds the elements of `a` in the same order, possibly with others
      in between. */
  predicate IsSubsequence<T(==)>(a: seq<T>, b: seq<T>)
    decreases |b|
  {
    a == [] || (b != [] && ((a[0] == b[0] && IsSubsequence(a[1..], b[1..])) || IsSubsequence(a, b[1..])))
  }

  lemma {:induction false} SubsequenceMultiset<T>(a: seq<T>, b: seq<T>)
    requires IsSubsequence(a, b)
    ensures multiset(a) <= multiset(b)
    decreases |b|
  {
    if a != [] {
      assert b == [b[0]] + b[1..];
      if a[0] == b[0] && IsSubsequence(a[1..], b[1..]) {
        SubsequenceMultiset(a[1..], b[1..]);
        assert a == [a[0]] + a[1..];
      } else {
        SubsequenceMultiset(a, b[1..]);
      }
    }
  }

  lemma {:induction false} SubsequenceOfPrefix<T>(a: seq<T>, b: seq<T>, n: nat)
    requires n <= |a| && IsSubsequence(a, b)
    ensures IsSubsequence(a[..n], b)
    decreases |b|
  {
    if n > 0 {
      assert a[..n][0] == a[0] && a[..n][1..] == a[1..][..n - 1];
      if a[0] == b[0] && IsSubsequence(a[1..], b[1..]) {
        SubsequenceOfPrefix(a[1..], b[1..], n - 1);
      } else {
        SubsequenceOfPrefix(a, b[1..], n);
      }
    }
  }

  lemma AppendAssoc<T>(a: seq<T>, b: seq<T>, c: seq<T>)
    ensures a + b + c == a + (b + c)
  {
  }

  /** One more element of a prefix. */
  lemma PrefixStep<T>(s: seq<T>, k: int)
    requires 0 <= k < |s|
    ensures s[..k + 1] == s[..k] + [s[k]]
  {
  }

  /** The head and tail of a suffix. */
  lemma SuffixStep<T>(s: seq<T>, i: int)
    requires 0 <= i < |s|
    ensures s[i..][0] == s[i] && s[i..][1..] == s[i + 1..]
  {
  }

  /** `[x for x in s if f(x)]`: the elements that pass `f`, in their order. */
  function Filter<T(==,!new)>(f: T -> bool, s: seq<T>): (r: seq<T>)
    ensures |r| <= |s|
    ensures forall x :: x in r <==> x in s && f(x)
    ensures IsSubsequence(r, s)
  {
    if s == [] then []
    else if f(s[0]) then
      var rest := Filter(f, s[1..]);
      assert ([s[0]] + rest)[1..] == rest;
      [s[0]] + rest
    else Filter(f, s[1..])
  }

  lemma {:induction false} FilterNone<T(!new)>(f: T -> bool, s: seq<T>)
    requires forall i :: 0 <= i < |s| ==> !f(s[i])
    ensures Filter(f, s) == []
  {
    if s != [] {
      FilterNone(f, s[1..]);
    }
  }

  /** Each value occurs in the result as often as in `s` when it passes `f`,
      and not at all otherwise. */
  lemma {:induction false} FilterMultiset<T(!new)>(f: T -> bool, s: seq<T>)
    ensures forall x :: multiset(Filter(f, s))[x] == (if f(x) then multiset(s)[x] else 0)
  {
    if s != [] {
      FilterMultiset(f, s[1..]);
      assert s == [s[0]] + s[1..];
    }
  }

  function Min(a: int, b: int): int {
    if a <= b then a else b
  }

  function Max(a: int, b: int): int {
    if a <= b then b else a
  }

  /** The first `n` elements, or all of them when there are fewer. */
  function Take<T>(s: seq<T>, n: nat): (r: seq<T>)
    ensures |r| == Min(n, |s|) && r == s[..|r|]
  {
    if n <= |s| then s[..n] else s
  }

  /** Python's `s[:n]`, where a negative `n` counts from the end. */
  function PySlice<T>(s: seq<T>, n: int): (r: seq<T>)
    ensures |r| <= |s| && r == s[..|r|]
    ensures n >= 0 ==> |r| == Min(n, |s|)
    ensures n < 0 ==> |r| == Max(0, |s| + n)
  {
    if n >= 0 then Take(s, n) else Take(s, Max(0, |s| + n))
  }

  /** `[f(x) for x in s]`. */
  function Map<T, U>(f: T -> U, s: seq<T>): (r: seq<U>)
    ensures |r| == |s| && forall i :: 0 <= i < |s| ==> r[i] == f(s[i])
  {
    if s == [] then [] else [f(s[0])] + Map(f, s[1..])
  }

  /** `[f(x) for x in s if keep(x)]`. */
  function Select<T, U>(keep: T -> bool, f: T -> U, s: seq<T>): seq<U> {
    if s == [] then []
    else (if keep(s[0]) then [f(s[0])] else []) + Select(keep, f, s[1..])
  }

  lemma {:induction false} SelectAppend<T, U>(keep: T -> bool, f: T -> U, s: seq<T>, x: T)
    ensures Select(keep, f, s + [x]) == Select(keep, f, s) + (if keep(x) then [f(x)] else [])
  {
    if s == [] {
      assert [x][1..] == [];
    } else {
      assert (s + [x])[0] == s[0] && (s + [x])[1..] == s[1..] + [x];
      SelectAppend(keep, f, s[1..], x);
      var h := if keep(s[0]) then [f(s[0])] else [];
      AppendAssoc(h, Select(keep, f, s[1..]), if keep(x) then [f(x)] else []);
    }
  }

  /** Selecting is mapping over the kept elements. */
  lemma {:induction false} SelectIsMapFilter<T(!new), U>(keep: T -> bool, f: T -> U, s: seq<T>)
    ensures Select(keep, f, s) == Map(f, Filter(keep, s))
  {
    if s != [] {
      SelectIsMapFilter(keep, f, s[1..]);
      if keep(s[0]) {
        var rest := Filter(keep, s[1..]);
        assert ([s[0]] + rest)[1..] == rest;
      }
    }
  }

  /** Nothing is selected exactly when no element is kept. */
  lemma {:induction false} SelectEmpty<T, U>(keep: T -> bool, f: T -> U, s: seq<T>)
    ensures Select(keep, f, s) == [] <==> forall i :: 0 <= i < |s| ==> !keep(s[i])
  {
    if s != [] {
      SelectEmpty(keep, f, s[1..]);
      if !keep(s[0]) {
        assert forall i :: 1 <= i < |s| ==> s[i] == s[1..][i - 1];
      }
    }
  }

  /** At most one result per element, and one for every kept element. */
  lemma {:induction false} SelectCover<T, U>(keep: T -> bool, f: T -> U, s: seq<T>)
    ensures |Select(keep, f, s)| <= |s|
    ensures forall i :: 0 <= i < |s| && keep(s[i]) ==> f(s[i]) in Select(keep, f, s)
  {
    if s != [] {
      SelectCover(keep, f, s[1..]);
      assert forall i :: 1 <= i < |s| ==> s[i] == s[1..][i - 1];
    }
  }

  /** Non-decreasing by `key`. */
  predicate SortedBy<T>(key: T -> int, s: seq<T>) {
    forall i, j :: 0 <= i < j < |s| ==> key(s[i]) <= key(s[j])
  }

  /** `key(x) == k`, as a function value for `Filter`. */
  function HasKey<T>(key: T -> int, k: int): T -> bool {
    x => key(x) == k
  }

  /** Inserts `x` before the first element whose key is not below its own. */
  function InsertBy<T>(key: T -> int, x: T, s: seq<T>): seq<T> {
    if s == [] || key(x) <= key(s[0]) then [x] + s
    else [s[0]] + InsertBy(key, x, s[1..])
  }

  /** The result of `s.sort(key=key)`: insertion sort, stable because each element is
      put ahead of the equal keys that came after it. */
  function SortBy<T>(key: T -> int, s: seq<T>): seq<T> {
    if s == [] then [] else InsertBy(key, s[0], SortBy(key, s[1..]))
  }

  lemma {:induction false} InsertByMultiset<T>(key: T -> int, x: T, s: seq<T>)
    ensures multiset(InsertBy(key, x, s)) == multiset(s) + multiset{x}
  {
    if s != [] && key(x) > key(s[0]) {
      InsertByMultiset(key, x, s[1..]);
      assert s == [s[0]] + s[1..];
    }
  }

  lemma {:induction false} InsertBySorted<T>(key: T -> int, x: T, s: seq<T>)
    requires SortedBy(key, s)
    ensures SortedBy(key, InsertBy(key, x, s))
    ensures InsertBy(key, x, s) != []
    ensures InsertBy(key, x, s)[0] == x || (s != [] && InsertBy(key, x, s)[0] == s[0])
  {
    if s != [] && key(x) > key(s[0]) {
      var t := InsertBy(key, x, s[1..]);
      InsertBySorted(key, x, s[1..]);
      var r := [s[0]] + t;
      forall i, j | 0 <= i < j < |r|
        ensures key(r[i]) <= key(r[j])
      {
        if i > 0 {
          assert r[i] == t[i - 1] && r[j] == t[j - 1];
        } else {
          assert r[j] == t[j - 1];
          assert key(t[0]) <= key(t[j - 1]) by {
            if j - 1 > 0 {
              assert key(t[0]) <= key(t[j - 1]);
            }
            if t[0] != x {
              assert t[0] == s[1];
            }
          }
        }
      }
    }
  }

  /** Inserting `x` puts it at the head of the run of its own key and leaves
      every other run as it was. */
  lemma {:induction false} InsertByRuns<T(!new)>(key: T -> int, x: T, s: seq<T>, k: int)
    ensures Filter(HasKey(key, k), InsertBy(key, x, s)) ==
      (if key(x) == k then [x] else []) + Filter(HasKey(key, k), s)
  {
    if s == [] || key(x) <= key(s[0]) {
      assert ([x] + s)[0] == x && ([x] + s)[1..] == s;
    } else {
      InsertByRuns(key, x, s[1..], k);
      var r := [s[0]] + InsertBy(key, x, s[1..]);
      assert r[0] == s[0] && r[1..] == InsertBy(key, x, s[1..]);
    }
  }

  /** The sort is a permutation, it orders by key, and each run of equal keys
      keeps its original order. */
  lemma {:induction false} SortByCorrect<T(!new)>(key: T -> int, s: seq<T>)
    ensures multiset(SortBy(key, s)) == multiset(s)
    ensures SortedBy(key, SortBy(key, s))
    ensures forall k :: Filter(HasKey(key, k), SortBy(key, s)) == Filter(HasKey(key, k), s)
  {
    if s != [] {
      SortByCorrect(key, s[1..]);
      InsertByMultiset(key, s[0], SortBy(key, s[1..]));
      InsertBySorted(key, s[0], SortBy(key, s[1..]));
      assert s == [s[0]] + s[1..];
      forall k
        ensures Filter(HasKey(key, k), SortBy(key, s)) == Filter(HasKey(key, k), s)
      {
        InsertByRuns(key, s[0], SortBy(key, s[1..]), k);
      }
    }
  }
}
