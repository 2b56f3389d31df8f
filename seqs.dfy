/**
 * Sequence operations the Python code gets from its list type: the stable
 * `list.sort`, list comprehensions with a condition, and slicing.
 */
module Seqs {

  ghost predicate Transitive<T(!new)>(le: (T, T) -> bool) {
    forall a, b, c :: le(a, b) && le(b, c) ==> le(a, c)
  }

  ghost predicate Total<T(!new)>(le: (T, T) -> bool) {
    forall a, b :: le(a, b) || le(b, a)
  }

  /** What a sort key's `<=` must be for `list.sort` to order by it. */
  ghost predicate TotalPreorder<T(!new)>(le: (T, T) -> bool) {
    Transitive(le) && Total(le)
  }

  ghost predicate SortedBy<T>(s: seq<T>, le: (T, T) -> bool) {
    forall i, j :: 0 <= i < j < |s| ==> le(s[i], s[j])
  }

  /** Inserts x in front of the first element it is `le` to: after every element strictly below it. */
  function Insert<T>(x: T, s: seq<T>, le: (T, T) -> bool): (r: seq<T>)
    ensures |r| == |s| + 1
  {
    if s == [] || le(x, s[0]) then [x] + s else [s[0]] + Insert(x, s[1..], le)
  }

  /** Python's `list.sort(key=...)`, a stable sort, written as insertion sort. */
  function SortBy<T>(s: seq<T>, le: (T, T) -> bool): (r: seq<T>)
    ensures |r| == |s|
  {
    if s == [] then [] else Insert(s[0], SortBy(s[1..], le), le)
  }

  lemma {:induction false} InsertPermutation<T>(x: T, s: seq<T>, le: (T, T) -> bool)
    ensures multiset(Insert(x, s, le)) == multiset(s) + multiset{x}
  {
    if s != [] && !le(x, s[0]) {
      InsertPermutation(x, s[1..], le);
      assert s == [s[0]] + s[1..];
    }
  }

  /** Sorting only reorders: the result is a permutation of the input. */
  lemma {:induction false} SortByPermutation<T>(s: seq<T>, le: (T, T) -> bool)
    ensures multiset(SortBy(s, le)) == multiset(s)
  {
    if s != [] {
      SortByPermutation(s[1..], le);
      InsertPermutation(s[0], SortBy(s[1..], le), le);
      assert s == [s[0]] + s[1..];
    }
  }

  lemma {:induction false} InsertSorted<T(!new)>(x: T, s: seq<T>, le: (T, T) -> bool)
    requires TotalPreorder(le) && SortedBy(s, le)
    ensures SortedBy(Insert(x, s, le), le)
  {
    if s != [] && !le(x, s[0]) {
      var t := Insert(x, s[1..], le);
      InsertSorted(x, s[1..], le);
      InsertPermutation(x, s[1..], le);
      assert le(s[0], x);
      forall k | 0 <= k < |t| ensures le(s[0], t[k]) {
        assert t[k] in multiset(t);
        if t[k] != x {
          assert t[k] in multiset(s[1..]);
          var m :| 0 <= m < |s[1..]| && s[1..][m] == t[k];
          assert s[m + 1] == t[k];
        }
      }
      var r := [s[0]] + t;
      forall i, j | 0 <= i < j < |r| ensures le(r[i], r[j]) {
        if i > 0 {
          assert r[i] == t[i - 1] && r[j] == t[j - 1];
        } else {
          assert r[j] == t[j - 1];
        }
      }
    }
  }

  /** Sorting by a total preorder yields an ordered sequence. */
  lemma {:induction false} SortBySorted<T(!new)>(s: seq<T>, le: (T, T) -> bool)
    requires TotalPreorder(le)
    ensures SortedBy(SortBy(s, le), le)
  {
    if s != [] {
      SortBySorted(s[1..], le);
      InsertSorted(s[0], SortBy(s[1..], le), le);
    }
  }

  predicate Equivalent<T>(le: (T, T) -> bool, a: T, b: T) {
    le(a, b) && le(b, a)
  }

  /** The elements of s whose key equals that of k, in their order in s. */
  function ClassOf<T>(s: seq<T>, k: T, le: (T, T) -> bool): (r: seq<T>)
    ensures |r| <= |s|
  {
    if s == [] then []
    else (if Equivalent(le, s[0], k) then [s[0]] else []) + ClassOf(s[1..], k, le)
  }

  lemma {:induction false} InsertClass<T(!new)>(x: T, s: seq<T>, k: T, le: (T, T) -> bool)
    requires Transitive(le)
    ensures ClassOf(Insert(x, s, le), k, le) == ClassOf([x], k, le) + ClassOf(s, k, le)
  {
    var r := Insert(x, s, le);
    var cx := if Equivalent(le, x, k) then [x] else [];
    assert ClassOf([x], k, le) == cx + ClassOf([x][1..], k, le);
    assert [x][1..] == [];
    if s == [] || le(x, s[0]) {
      assert r == [x] + s && r[0] == x && r[1..] == s;
      assert ClassOf(r, k, le) == cx + ClassOf(s, k, le);
    } else {
      var t := Insert(x, s[1..], le);
      InsertClass(x, s[1..], k, le);
      assert r == [s[0]] + t && r[0] == s[0] && r[1..] == t;
      var c0 := if Equivalent(le, s[0], k) then [s[0]] else [];
      assert ClassOf(r, k, le) == c0 + ClassOf(t, k, le);
      assert ClassOf(s, k, le) == c0 + ClassOf(s[1..], k, le);
      if Equivalent(le, x, k) {
        assert c0 == [];
      }
    }
  }

  /** Sorting is stable: the elements with one key keep their relative order. */
  lemma {:induction false} SortByStable<T(!new)>(s: seq<T>, k: T, le: (T, T) -> bool)
    requires Transitive(le)
    ensures ClassOf(SortBy(s, le), k, le) == ClassOf(s, k, le)
  {
    if s != [] {
      SortByStable(s[1..], k, le);
      InsertClass(s[0], SortBy(s[1..], le), k, le);
    }
  }

  /** A list comprehension `[x for x in s if p(x)]`. */
  function Filter<T>(s: seq<T>, p: T -> bool): (r: seq<T>)
    ensures |r| <= |s|
  {
    if s == [] then [] else (if p(s[0]) then [s[0]] else []) + Filter(s[1..], p)
  }

  /** Appending one element to the input appends it to the comprehension's result iff it is kept. */
  lemma {:induction false} FilterAppend<T>(s: seq<T>, x: T, p: T -> bool)
    ensures Filter(s + [x], p) == Filter(s, p) + (if p(x) then [x] else [])
  {
    if s != [] {
      assert (s + [x])[1..] == s[1..] + [x];
      FilterAppend(s[1..], x, p);
    } else {
      assert s + [x] == [x];
    }
  }

  /** A list comprehension `[f(x) for x in s]`. */
  function Map<T, U>(s: seq<T>, f: T -> U): (r: seq<U>)
    ensures |r| == |s|
    ensures forall i :: 0 <= i < |s| ==> r[i] == f(s[i])
  {
    seq(|s|, i requires 0 <= i < |s| => f(s[i]))
  }

  lemma MapAppend<T, U>(s: seq<T>, x: T, f: T -> U)
    ensures Map(s + [x], f) == Map(s, f) + [f(x)]
  {
  }

  /** Appending the image of `s[k]` and then the mapped suffix after it is appending the
      mapped suffix from `k`. */
  lemma MapStep<T, U>(pre: seq<U>, s: seq<T>, k: nat, f: T -> U)
    requires k < |s|
    ensures (pre + [f(s[k])]) + Map(s[k + 1..], f) == pre + Map(s[k..], f)
  {
    var a, b := Map(s[k + 1..], f), Map(s[k..], f);
    assert b == [f(s[k])] + a by {
      forall m | 0 <= m < |b| ensures b[m] == ([f(s[k])] + a)[m] {
        if m > 0 {
          assert s[k..][m] == s[k + 1..][m - 1];
        }
      }
    }
  }

  lemma MapPrefix<T, U>(s: seq<T>, i: nat, f: T -> U)
    requires i < |s|
    ensures Map(s[..i + 1], f) == Map(s[..i], f) + [f(s[i])]
  {
    assert s[..i + 1] == s[..i] + [s[i]];
  }

  /** The comprehension keeps every element exactly when it drops none. */
  lemma {:induction false} FilterKeepsAll<T>(s: seq<T>, p: T -> bool)
    ensures |Filter(s, p)| == |s| <==> forall i :: 0 <= i < |s| ==> p(s[i])
  {
    if s != [] {
      FilterKeepsAll(s[1..], p);
      assert forall i :: 1 <= i < |s| ==> s[i] == s[1..][i - 1];
    }
  }

  /** r can be obtained from s by deleting elements. */
  ghost predicate IsSubsequence<T>(r: seq<T>, s: seq<T>)
    decreases |s|
  {
    r == [] || (s != [] && if r[0] == s[0] then IsSubsequence(r[1..], s[1..]) else IsSubsequence(r, s[1..]))
  }

  /** The comprehension keeps exactly the elements satisfying p, in their original order. */
  lemma {:induction false} FilterSpec<T>(s: seq<T>, p: T -> bool)
    ensures forall x :: x in Filter(s, p) <==> x in s && p(x)
    ensures IsSubsequence(Filter(s, p), s)
    ensures (forall i :: 0 <= i < |s| ==> p(s[i])) ==> Filter(s, p) == s
  {
    if s != [] {
      FilterSpec(s[1..], p);
      var r := Filter(s, p);
      if p(s[0]) {
        assert r[0] == s[0] && r[1..] == Filter(s[1..], p);
      } else {
        assert r == Filter(s[1..], p);
        SkipHeadSubsequence(r, s);
      }
    }
  }

  lemma {:induction false} SkipHeadSubsequence<T>(r: seq<T>, s: seq<T>)
    requires s != [] && IsSubsequence(r, s[1..])
    ensures IsSubsequence(r, s)
    decreases |s|, |r|
  {
    if r != [] && r[0] == s[0] {
      SubsequenceTail(r, s[1..]);
    }
  }

  lemma ConsSubsequence<T>(x: T, r: seq<T>, s: seq<T>)
    requires IsSubsequence(r, s)
    ensures IsSubsequence([x] + r, [x] + s)
  {
    assert ([x] + r)[1..] == r && ([x] + s)[1..] == s;
  }

  lemma {:induction false} SubsequenceTail<T>(r: seq<T>, s: seq<T>)
    requires r != [] && IsSubsequence(r, s)
    ensures IsSubsequence(r[1..], s)
    decreases |s|, |r|
  {
    if r[0] == s[0] {
      if r[1..] != [] {
        SkipHeadSubsequence(r[1..], s);
      }
    } else {
      SubsequenceTail(r, s[1..]);
      SkipHeadSubsequence(r[1..], s);
    }
  }

  /** Python's `s[-n:]` for n > 0: the last n elements, or all of s if it is shorter. */
  function LastN<T>(s: seq<T>, n: nat): (r: seq<T>)
    requires n > 0
    ensures |r| == if |s| <= n then |s| else n
    ensures s == s[..|s| - |r|] + r
  {
    if |s| <= n then s else s[|s| - n..]
  }

  /** Python's `s[:k]` for any integer k (a negative k counts from the end). */
  function SliceTo<T>(s: seq<T>, k: int): (r: seq<T>)
    ensures |r| <= |s| && r == s[..|r|]
    ensures k >= 0 ==> |r| == if k <= |s| then k else |s|
    ensures k < 0 ==> |r| == if |s| + k >= 0 then |s| + k else 0
  {
    if k >= 0 then (if k <= |s| then s[..k] else s)
    else (if |s| + k >= 0 then s[..|s| + k] else [])
  }
}
