/** Sequence helpers: the filtering, counting and ordering that the repositories' queries perform. */
module Seqs {
  import opened Wrappers

  /** `r` keeps some of the elements of `s`, in their original order. */
  predicate IsSubsequence<T(==)>(r: seq<T>, s: seq<T>)
    decreases |s|
  {
    if r == [] then true
    else if s == [] then false
    else if r[0] == s[0] then IsSubsequence(r[1..], s[1..])
    else IsSubsequence(r, s[1..])
  }

  /** Every sequence is a subsequence of itself: a query with no `WHERE` clause. */
  lemma {:induction false} SubsequenceOfItself<T>(s: seq<T>)
    ensures IsSubsequence(s, s)
    decreases |s|
  {
    if s != [] {
      SubsequenceOfItself(s[1..]);
    }
  }

  /** The elements of `s` on which `f` holds, in order: a `WHERE` clause. */
  function Filter<T(==,!new)>(s: seq<T>, f: T -> bool): (r: seq<T>)
    ensures |r| <= |s|
    ensures forall x :: x in r <==> x in s && f(x)
    ensures forall k :: 0 <= k < |r| ==> f(r[k])
    ensures IsSubsequence(r, s)
    decreases |s|
  {
    if s == [] then []
    else if f(s[0]) then [s[0]] + Filter(s[1..], f)
    else Filter(s[1..], f)
  }

  /** Filtering by `f` and then by `g` is filtering once by their conjunction `h`. */
  lemma {:induction false} FilterOfFilter<T(!new)>(s: seq<T>, f: T -> bool, g: T -> bool, h: T -> bool)
    requires forall x :: h(x) == (f(x) && g(x))
    ensures Filter(Filter(s, f), g) == Filter(s, h)
    decreases |s|
  {
    if s != [] {
      FilterOfFilter(s[1..], f, g, h);
      if f(s[0]) {
        assert Filter(s, f)[1..] == Filter(s[1..], f);
      }
    }
  }

  /** The number of elements of `s` on which `f` holds: a `SELECT COUNT(*)`. */
  function CountWhere<T>(s: seq<T>, f: T -> bool): (n: nat)
    ensures n <= |s|
    decreases |s|
  {
    if s == [] then 0
    else (if f(s[0]) then 1 else 0) + CountWhere(s[1..], f)
  }

  /** Counting rows and filtering them agree: `countBy…` is the size of `findBy…`. */
  lemma {:induction false} CountIsFilterLength<T(!new)>(s: seq<T>, f: T -> bool)
    ensures CountWhere(s, f) == |Filter(s, f)|
    decreases |s|
  {
    if s != [] {
      CountIsFilterLength(s[1..], f);
    }
  }

  /** Counts over a partition of the rows by `f` and its negation add up to all rows. */
  lemma {:induction false} CountSplits<T>(s: seq<T>, f: T -> bool, g: T -> bool)
    requires forall x :: g(x) == !f(x)
    ensures CountWhere(s, f) + CountWhere(s, g) == |s|
    decreases |s|
  {
    if s != [] {
      CountSplits(s[1..], f, g);
    }
  }

  /** Counts of pairwise exclusive conditions never exceed the number of rows. */
  lemma {:induction false} CountDisjoint3<T>(s: seq<T>, f: T -> bool, g: T -> bool, h: T -> bool)
    requires forall x :: !(f(x) && g(x)) && !(f(x) && h(x)) && !(g(x) && h(x))
    ensures CountWhere(s, f) + CountWhere(s, g) + CountWhere(s, h) <= |s|
    decreases |s|
  {
    if s != [] {
      CountDisjoint3(s[1..], f, g, h);
    }
  }

  /** The first `n` elements, or all of them when there are fewer: a `LIMIT n`. */
  function Take<T>(s: seq<T>, n: nat): (r: seq<T>)
    ensures |r| <= n && |r| <= |s|
    ensures |s| <= n ==> r == s
    ensures r == s[..|r|]
  {
    if |s| <= n then s else s[..n]
  }

  /** `s` is ordered by non-increasing `key`: newest first. */
  predicate SortedDesc<T>(s: seq<T>, key: T -> int)
  {
    forall i, j :: 0 <= i < j < |s| ==> key(s[i]) >= key(s[j])
  }

  /** Inserts `x` in front of the first element with a smaller key. */
  function InsertDesc<T>(x: T, s: seq<T>, key: T -> int): (r: seq<T>)
    ensures multiset(r) == multiset(s) + multiset{x}
    decreases |s|
  {
    if s == [] || key(x) > key(s[0]) then [x] + s
    else
      assert s == [s[0]] + s[1..];
      [s[0]] + InsertDesc(x, s[1..], key)
  }

  /** Insertion keeps a key-ordered sequence ordered. */
  lemma {:induction false} InsertDescSorted<T>(x: T, s: seq<T>, key: T -> int)
    requires SortedDesc(s, key)
    ensures SortedDesc(InsertDesc(x, s, key), key)
    decreases |s|
  {
    if s != [] && key(x) <= key(s[0]) {
      var rest := InsertDesc(x, s[1..], key);
      InsertDescSorted(x, s[1..], key);
      forall y | y in rest
        ensures key(y) <= key(s[0])
      {
        assert y in multiset(rest);
        if y != x {
          assert y in multiset(s[1..]);
        }
      }
      assert forall j :: 0 <= j < |rest| ==> rest[j] in rest;
    }
  }

  /** An `ORDER BY key DESC`: a permutation of `s` with non-increasing keys. */
  function SortDesc<T>(s: seq<T>, key: T -> int): (r: seq<T>)
    ensures SortedDesc(r, key)
    ensures multiset(r) == multiset(s)
    ensures |r| == |s|
    decreases |s|
  {
    if s == [] then []
    else
      assert s == [s[0]] + s[1..];
      var r := InsertDesc(s[0], SortDesc(s[1..], key), key);
      InsertDescSorted(s[0], SortDesc(s[1..], key), key);
      assert |r| == |multiset(r)|;
      r
  }

  /** The first element on which `f` holds: `findBy…` returning an `Optional`. */
  function FindFirst<T>(s: seq<T>, f: T -> bool): (r: Option<T>)
    ensures r.None? <==> forall k :: 0 <= k < |s| ==> !f(s[k])
    ensures r.Some? ==> exists k :: 0 <= k < |s| && s[k] == r.value && f(s[k]) && forall j :: 0 <= j < k ==> !f(s[j])
    decreases |s|
  {
    if s == [] then None
    else if f(s[0]) then Some(s[0])
    else
      var r := FindFirst(s[1..], f);
      assert r.Some? ==> exists k :: 0 < k < |s| && s[k] == r.value && f(s[k]) && forall j :: 0 <= j < k ==> !f(s[j]) by {
        if r.Some? {
          var k :| 0 <= k < |s| - 1 && s[1..][k] == r.value && f(s[1..][k]) && forall j :: 0 <= j < k ==> !f(s[1..][j]);
          assert s[k + 1] == r.value;
        }
      }
      r
  }

  /** Every element on which `f` holds replaced by `x`: `save` of an entity that already exists. */
  function UpdateWhere<T>(s: seq<T>, f: T -> bool, x: T): (r: seq<T>)
    ensures |r| == |s|
    ensures forall k :: 0 <= k < |s| ==> r[k] == if f(s[k]) then x else s[k]
  {
    seq(|s|, k requires 0 <= k < |s| => if f(s[k]) then x else s[k])
  }

  /** `findById` on a table whose key is `key`: the first row with key `k`. */
  function FindByKey<T>(s: seq<T>, key: T -> int, k: int): (r: Option<T>)
    ensures r.Some? ==> r.value in s && key(r.value) == k
    ensures r.None? <==> forall i :: 0 <= i < |s| ==> key(s[i]) != k
    decreases |s|
  {
    if s == [] then None
    else if key(s[0]) == k then Some(s[0])
    else FindByKey(s[1..], key, k)
  }

  /** `save` of an entity whose key is already stored: every row with that key becomes `x`. */
  function SaveByKey<T>(s: seq<T>, key: T -> int, x: T): (r: seq<T>)
    ensures |r| == |s|
    ensures forall i :: 0 <= i < |s| ==> r[i] == if key(s[i]) == key(x) then x else s[i]
    decreases |s|
  {
    if s == [] then []
    else [if key(s[0]) == key(x) then x else s[0]] + SaveByKey(s[1..], key, x)
  }

  /** `deleteById`: the rows with key `k` are gone, the others keep their order. */
  function DeleteByKey<T>(s: seq<T>, key: T -> int, k: int): (r: seq<T>)
    ensures |r| <= |s|
    ensures forall i :: 0 <= i < |r| ==> key(r[i]) != k
    decreases |s|
  {
    if s == [] then []
    else if key(s[0]) == k then DeleteByKey(s[1..], key, k)
    else [s[0]] + DeleteByKey(s[1..], key, k)
  }

  /** A delete keeps exactly the rows whose key differs from `k`. */
  lemma {:induction false} DeleteByKeyMembers<T>(s: seq<T>, key: T -> int, k: int)
    ensures forall x :: x in DeleteByKey(s, key, k) <==> x in s && key(x) != k
    decreases |s|
  {
    if s != [] {
      DeleteByKeyMembers(s[1..], key, k);
    }
  }

  /** After a save, the saved key finds the new row (when it was stored) and every other key what it found before. */
  lemma {:induction false} FindAfterSave<T>(s: seq<T>, key: T -> int, x: T, k: int)
    ensures FindByKey(SaveByKey(s, key, x), key, k)
         == if k == key(x) && FindByKey(s, key, k).Some? then Some(x) else FindByKey(s, key, k)
    decreases |s|
  {
    if s != [] {
      FindAfterSave(s[1..], key, x, k);
      assert SaveByKey(s, key, x)[1..] == SaveByKey(s[1..], key, x);
    }
  }

  /** After a delete, the deleted key finds nothing and every other key what it found before. */
  lemma {:induction false} FindAfterDelete<T>(s: seq<T>, key: T -> int, k: int, j: int)
    ensures FindByKey(DeleteByKey(s, key, k), key, j) == if j == k then None else FindByKey(s, key, j)
    decreases |s|
  {
    if s != [] {
      FindAfterDelete(s[1..], key, k, j);
      if key(s[0]) != k {
        assert DeleteByKey(s, key, k)[1..] == DeleteByKey(s[1..], key, k);
      }
    }
  }

  /** The head of a descending sort is an element with the largest key (`findFirst…OrderBy…Desc`). */
  lemma SortDescHeadIsMax<T>(s: seq<T>, key: T -> int)
    requires s != []
    ensures SortDesc(s, key)[0] in s
    ensures forall x :: x in s ==> key(x) <= key(SortDesc(s, key)[0])
  {
    var r := SortDesc(s, key);
    assert r[0] in multiset(r);
    forall x | x in s
      ensures key(x) <= key(r[0])
    {
      assert x in multiset(s);
      assert x in r;
      var j :| 0 <= j < |r| && r[j] == x;
      if j > 0 {
        assert key(r[0]) >= key(r[j]);
      }
    }
  }

  /** Sorting keeps exactly the same elements. */
  lemma SortDescMembers<T>(s: seq<T>, key: T -> int)
    ensures forall x :: x in SortDesc(s, key) <==> x in s
  {
    var r := SortDesc(s, key);
    assert forall x :: x in r <==> x in multiset(r);
    assert forall x :: x in s <==> x in multiset(s);
  }
}
