/**
 * The array operations the stores and components are built from, as the
 * JavaScript built-ins behave: `filter`, `find`, `findIndex`, the
 * remove-then-insert pair of `splice` calls used for drag-reordering, the
 * `forEach((x, i) => x.order = i)` renumbering pass, and the stable `sort`
 * that ECMAScript 2019 and later require.
 */
module Seqs {
  import opened Wrappers

  /** `s.filter(p)`: the elements satisfying `p`, in their original order. */
  function Filter<T>(s: seq<T>, p: T -> bool): (r: seq<T>)
    ensures |r| <= |s|
  {
    if s == [] then [] else (if p(s[0]) then [s[0]] else []) + Filter(s[1..], p)
  }

  /** An element is kept exactly when it occurs in the input and passes the test. */
  lemma {:induction false} FilterMember<T>(s: seq<T>, p: T -> bool, x: T)
    ensures x in Filter(s, p) <==> x in s && p(x)
  {
    if s != [] {
      FilterMember(s[1..], p, x);
      assert s == [s[0]] + s[1..];
    }
  }

  /** Two complementary filters split a sequence: together they hold every element once. */
  lemma {:induction false} FilterPartition<T>(s: seq<T>, p: T -> bool, q: T -> bool)
    requires forall i :: 0 <= i < |s| ==> (q(s[i]) <==> !p(s[i]))
    ensures multiset(Filter(s, p)) + multiset(Filter(s, q)) == multiset(s)
  {
    if s != [] {
      FilterPartition(s[1..], p, q);
      assert s == [s[0]] + s[1..];
    }
  }

  lemma {:induction false} FilterConcat<T>(a: seq<T>, b: seq<T>, p: T -> bool)
    ensures Filter(a + b, p) == Filter(a, p) + Filter(b, p)
  {
    if a == [] {
      assert a + b == b;
    } else {
      assert a + b == [a[0]] + (a[1..] + b);
      FilterCons(a[0], a[1..] + b, p);
      FilterConcat(a[1..], b, p);
      assert a == [a[0]] + a[1..];
      FilterCons(a[0], a[1..], p);
    }
  }

  /** No two elements share a key. */
  predicate DistinctBy<T, K(==)>(s: seq<T>, key: T -> K)
  {
    forall i, j :: 0 <= i < j < |s| ==> key(s[i]) != key(s[j])
  }

  /** Filtering keeps keys distinct. */
  lemma {:induction false} FilterDistinctBy<T, K>(s: seq<T>, p: T -> bool, key: T -> K)
    requires DistinctBy(s, key)
    ensures DistinctBy(Filter(s, p), key)
  {
    if s != [] {
      FilterDistinctBy(s[1..], p, key);
      FilterCons(s[0], s[1..], p);
      assert s == [s[0]] + s[1..];
      var rest := Filter(s[1..], p);
      forall k | 0 <= k < |rest|
        ensures key(rest[k]) != key(s[0])
      {
        FilterMember(s[1..], p, rest[k]);
      }
    }
  }

  /** Filtering keeps everything when every element passes. */
  lemma {:induction false} FilterKeepsAll<T>(s: seq<T>, p: T -> bool)
    requires forall i :: 0 <= i < |s| ==> p(s[i])
    ensures Filter(s, p) == s
  {
    if s != [] {
      FilterKeepsAll(s[1..], p);
    }
  }

  /** `s.map(x => p(x) ? f(x) : x)`: the matching elements are rewritten, all others are kept. */
  function MapWhere<T>(s: seq<T>, p: T -> bool, f: T -> T): (r: seq<T>)
    ensures |r| == |s|
    ensures forall i :: 0 <= i < |s| && p(s[i]) ==> r[i] == f(s[i])
    ensures forall i :: 0 <= i < |s| && !p(s[i]) ==> r[i] == s[i]
  {
    seq(|s|, i requires 0 <= i < |s| => if p(s[i]) then f(s[i]) else s[i])
  }

  /** `s.findIndex(p)`: the first index whose element satisfies `p`, or -1. */
  function FindIndex<T>(s: seq<T>, p: T -> bool): (r: int)
    ensures -1 <= r < |s|
    ensures r == -1 <==> forall i :: 0 <= i < |s| ==> !p(s[i])
    ensures r >= 0 ==> p(s[r]) && forall i :: 0 <= i < r ==> !p(s[i])
  {
    if s == [] then -1
    else if p(s[0]) then 0
    else
      var k := FindIndex(s[1..], p);
      if k == -1 then -1 else k + 1
  }

  /** `s.find(p)`: the first element satisfying `p`, or `undefined`. */
  function Find<T>(s: seq<T>, p: T -> bool): (r: Option<T>)
    ensures r.None? <==> forall i :: 0 <= i < |s| ==> !p(s[i])
    ensures r.Some? ==> r.value in s && p(r.value)
    ensures r.Some? ==> exists i :: 0 <= i < |s| && s[i] == r.value && forall j :: 0 <= j < i ==> !p(s[j])
  {
    var k := FindIndex(s, p);
    if k == -1 then None else Some(s[k])
  }

  lemma FindCons<T>(x: T, s: seq<T>, p: T -> bool)
    ensures Find([x] + s, p) == if p(x) then Some(x) else Find(s, p)
  {
    var k := FindIndex(s, p);
    assert ([x] + s)[1..] == s;
    if !p(x) && k != -1 {
      assert ([x] + s)[k + 1] == s[k];
    }
  }

  /** Filtering with a test that every match passes does not change what `find` returns. */
  lemma {:induction false} FindFilter<T>(s: seq<T>, p: T -> bool, q: T -> bool)
    requires forall i :: 0 <= i < |s| && p(s[i]) ==> q(s[i])
    ensures Find(Filter(s, q), p) == Find(s, p)
  {
    if s != [] {
      FindFilter(s[1..], p, q);
      assert s == [s[0]] + s[1..];
      FilterCons(s[0], s[1..], q);
      FindCons(s[0], s[1..], p);
      if q(s[0]) {
        FindCons(s[0], Filter(s[1..], q), p);
      } else {
        assert Filter(s, q) == Filter(s[1..], q);
      }
    }
  }

  /** `s.splice(i, 1)` applied to a copy: the sequence without position `i`. */
  function RemoveAt<T>(s: seq<T>, i: nat): (r: seq<T>)
    requires i < |s|
    ensures |r| == |s| - 1
  {
    s[..i] + s[i + 1..]
  }

  /** `s.splice(i, 0, x)` applied to a copy: `x` inserted before position `i`. */
  function InsertAt<T>(s: seq<T>, i: nat, x: T): (r: seq<T>)
    requires i <= |s|
    ensures |r| == |s| + 1
  {
    s[..i] + [x] + s[i..]
  }

  /**
   * The drag-reorder step: `const [removed] = a.splice(from, 1);
   * a.splice(to, 0, removed)`. The moved element ends up at `to`, the others
   * keep their relative order, and nothing is lost or duplicated.
   */
  function Move<T>(s: seq<T>, from: nat, to: nat): (r: seq<T>)
    requires from < |s| && to < |s|
    ensures |r| == |s|
    ensures r[to] == s[from]
    ensures RemoveAt(r, to) == RemoveAt(s, from)
    ensures multiset(r) == multiset(s)
  {
    var x := s[from];
    var rest := s[..from] + s[from + 1..];
    var r := rest[..to] + [x] + rest[to..];
    assert r[..to] == rest[..to];
    assert r[to + 1..] == rest[to..];
    assert rest[..to] + rest[to..] == rest;
    calc {
      multiset(r);
      multiset(rest[..to]) + multiset{x} + multiset(rest[to..]);
      multiset(rest) + multiset{x};
      multiset(s[..from]) + multiset(s[from + 1..]) + multiset{x};
      { assert s == s[..from] + [x] + s[from + 1..]; }
      multiset(s);
    }
    r
  }

  /** The sequence after `forEach((x, i) => { x.order = i })`. */
  function Renumbered<T>(s: seq<T>, setOrder: (T, int) -> T): (r: seq<T>)
    ensures |r| == |s|
  {
    seq(|s|, i requires 0 <= i < |s| => setOrder(s[i], i))
  }

  /**
   * The found case of a drag-reorder: move, then renumber. The moved element
   * ends at `to` with number `to`; every position takes the moved list's
   * element with its own index as number.
   */
  function MoveRenumbered<T>(s: seq<T>, from: nat, to: nat, setOrder: (T, int) -> T): (r: seq<T>)
    requires from < |s| && to < |s|
    ensures |r| == |s| && r[to] == setOrder(s[from], to)
    ensures forall i :: 0 <= i < |r| ==> r[i] == setOrder(Move(s, from, to)[i], i)
  {
    Renumbered(Move(s, from, to), setOrder)
  }

  /**
   * A drag-reorder by ids: find the active and the over element; when either
   * is missing the list comes back as it was, otherwise the active element
   * moves to the over position and every element is renumbered.
   */
  function Reorder<T>(s: seq<T>, isActive: T -> bool, isOver: T -> bool, setOrder: (T, int) -> T): (r: seq<T>)
    ensures |r| == |s|
    ensures FindIndex(s, isActive) == -1 || FindIndex(s, isOver) == -1 ==> r == s
    ensures FindIndex(s, isActive) >= 0 && FindIndex(s, isOver) >= 0 ==>
      var a, o := FindIndex(s, isActive), FindIndex(s, isOver);
      isActive(s[a]) && isOver(s[o]) && r[o] == setOrder(s[a], o) &&
      forall i :: 0 <= i < |r| ==> r[i] == setOrder(Move(s, a, o)[i], i)
  {
    var a := FindIndex(s, isActive);
    var o := FindIndex(s, isOver);
    if a == -1 || o == -1 then s else MoveRenumbered(s, a, o, setOrder)
  }

  /** The renumbering loop itself, proved to produce `Renumbered`. */
  method Renumber<T>(s: seq<T>, setOrder: (T, int) -> T) returns (r: seq<T>)
    ensures r == Renumbered(s, setOrder)
  {
    r := s;
    var i := 0;
    while i < |r|
      invariant 0 <= i <= |r| == |s|
      invariant forall k :: 0 <= k < i ==> r[k] == setOrder(s[k], k)
      invariant forall k :: i <= k < |r| ==> r[k] == s[k]
    {
      r := r[i := setOrder(r[i], i)];
      i := i + 1;
    }
  }

  predicate SortedBy<T>(s: seq<T>, key: T -> int)
  {
    forall i, j :: 0 <= i < j < |s| ==> key(s[i]) <= key(s[j])
  }

  /** Insert `x` before the first element whose key is not smaller. */
  function InsertSorted<T>(x: T, s: seq<T>, key: T -> int): (r: seq<T>)
    ensures |r| == |s| + 1
    ensures multiset(r) == multiset(s) + multiset{x}
  {
    if s == [] then [x]
    else if key(x) <= key(s[0]) then [x] + s
    else
      assert s == [s[0]] + s[1..];
      [s[0]] + InsertSorted(x, s[1..], key)
  }

  lemma {:induction false} InsertSortedLowerBound<T>(x: T, s: seq<T>, key: T -> int, b: int)
    requires b <= key(x)
    requires forall k :: 0 <= k < |s| ==> b <= key(s[k])
    ensures forall k :: 0 <= k < |s| + 1 ==> b <= key(InsertSorted(x, s, key)[k])
  {
    if s != [] && key(x) > key(s[0]) {
      InsertSortedLowerBound(x, s[1..], key, b);
    }
  }

  lemma {:induction false} InsertSortedSorted<T>(x: T, s: seq<T>, key: T -> int)
    requires SortedBy(s, key)
    ensures SortedBy(InsertSorted(x, s, key), key)
  {
    if s != [] && key(x) > key(s[0]) {
      InsertSortedSorted(x, s[1..], key);
      InsertSortedLowerBound(x, s[1..], key, key(s[0]));
    }
  }

  /**
   * `s.slice().sort((a, b) => key(a) - key(b))`: a stable sort, written as an
   * insertion sort that places each earlier element before later equal ones.
   */
  function SortBy<T>(s: seq<T>, key: T -> int): (r: seq<T>)
    ensures |r| == |s|
    ensures multiset(r) == multiset(s)
  {
    if s == [] then []
    else
      assert s == [s[0]] + s[1..];
      InsertSorted(s[0], SortBy(s[1..], key), key)
  }

  lemma {:induction false} SortBySorted<T>(s: seq<T>, key: T -> int)
    ensures SortedBy(SortBy(s, key), key)
  {
    if s != [] {
      SortBySorted(s[1..], key);
      InsertSortedSorted(s[0], SortBy(s[1..], key), key);
    }
  }

  /** Sorting a sequence that is already in key order leaves it as it is. */
  lemma {:induction false} SortBySortedIsIdentity<T>(s: seq<T>, key: T -> int)
    requires SortedBy(s, key)
    ensures SortBy(s, key) == s
  {
    if s != [] {
      assert SortedBy(s[1..], key);
      SortBySortedIsIdentity(s[1..], key);
      assert s == [s[0]] + s[1..];
    }
  }

  /** Filtering a sorted sequence leaves it sorted. */
  lemma {:induction false} FilterSorted<T>(s: seq<T>, key: T -> int, p: T -> bool)
    requires SortedBy(s, key)
    ensures SortedBy(Filter(s, p), key)
  {
    if s != [] {
      var f1 := Filter(s[1..], p);
      assert SortedBy(s[1..], key);
      FilterSorted(s[1..], key, p);
      FilterCons(s[0], s[1..], p);
      assert s == [s[0]] + s[1..];
      if p(s[0]) {
        forall k | 0 <= k < |f1|
          ensures key(s[0]) <= key(f1[k])
        {
          FilterMember(s[1..], p, f1[k]);
          var j :| 0 <= j < |s[1..]| && s[1..][j] == f1[k];
          assert s[j + 1] == f1[k];
        }
        assert Filter(s, p) == [s[0]] + f1;
      }
    }
  }

  lemma FilterCons<T>(x: T, s: seq<T>, p: T -> bool)
    ensures Filter([x] + s, p) == (if p(x) then [x] else []) + Filter(s, p)
  {
    assert ([x] + s)[0] == x;
    assert ([x] + s)[1..] == s;
  }

  /** When `x` goes to the front, it also goes to the front of any filtered version of the list. */
  lemma FilterInsertSortedFront<T>(x: T, t: seq<T>, key: T -> int, p: T -> bool)
    requires SortedBy(t, key)
    requires t == [] || key(x) <= key(t[0])
    ensures Filter(InsertSorted(x, t, key), p)
         == if p(x) then InsertSorted(x, Filter(t, p), key) else Filter(t, p)
  {
    var ft := Filter(t, p);
    assert InsertSorted(x, t, key) == [x] + t;
    FilterCons(x, t, p);
    if p(x) && ft != [] {
      FilterMember(t, p, ft[0]);
      var j :| 0 <= j < |t| && t[j] == ft[0];
      assert key(t[0]) <= key(t[j]);
      assert InsertSorted(x, ft, key) == [x] + ft;
    }
  }

  lemma {:induction false} FilterInsertSorted<T>(x: T, t: seq<T>, key: T -> int, p: T -> bool)
    requires SortedBy(t, key)
    ensures Filter(InsertSorted(x, t, key), p)
         == if p(x) then InsertSorted(x, Filter(t, p), key) else Filter(t, p)
  {
    if t == [] || key(x) <= key(t[0]) {
      FilterInsertSortedFront(x, t, key, p);
    } else {
      var ins := InsertSorted(x, t, key);
      var ft := Filter(t, p);
      var u := InsertSorted(x, t[1..], key);
      assert ins == [t[0]] + u;
      FilterCons(t[0], u, p);
      assert t == [t[0]] + t[1..];
      FilterCons(t[0], t[1..], p);
      assert SortedBy(t[1..], key);
      FilterInsertSorted(x, t[1..], key, p);
      var f1 := Filter(t[1..], p);
      if p(x) && p(t[0]) {
        assert ft == [t[0]] + f1;
        assert InsertSorted(x, ft, key) == [t[0]] + InsertSorted(x, f1, key);
        assert Filter(ins, p) == InsertSorted(x, ft, key);
      } else if p(x) {
        assert ft == f1;
        assert Filter(ins, p) == InsertSorted(x, ft, key);
      } else {
        assert Filter(ins, p) == ft;
      }
    }
  }

  /**
   * Filtering a sorted list gives the same list as sorting the filtered one:
   * sort-then-filter and filter-then-sort agree because the sort is stable.
   */
  lemma {:induction false} FilterSortByCommute<T>(s: seq<T>, key: T -> int, p: T -> bool)
    ensures Filter(SortBy(s, key), p) == SortBy(Filter(s, p), key)
  {
    if s != [] {
      var sorted1 := SortBy(s[1..], key);
      FilterSortByCommute(s[1..], key, p);
      SortBySorted(s[1..], key);
      FilterInsertSorted(s[0], sorted1, key, p);
      var f := Filter(s, p);
      var f1 := Filter(s[1..], p);
      assert f == (if p(s[0]) then [s[0]] else []) + f1;
      if p(s[0]) {
        assert f[0] == s[0] && f[1..] == f1;
        assert SortBy(f, key) == InsertSorted(s[0], SortBy(f1, key), key);
      } else {
        assert f == f1;
      }
    }
  }

  /** The test for one key value. */
  function KeyIs<T>(key: T -> int, c: int): T -> bool { (x: T) => key(x) == c }

  /**
   * The sort is stable: the elements with any one key come out in the order
   * they went in.
   */
  lemma SortByStable<T>(s: seq<T>, key: T -> int, c: int)
    ensures Filter(SortBy(s, key), KeyIs(key, c)) == Filter(s, KeyIs(key, c))
  {
    var f := Filter(s, KeyIs(key, c));
    forall k | 0 <= k < |f|
      ensures key(f[k]) == c
    {
      FilterMember(s, KeyIs(key, c), f[k]);
    }
    FilterSortByCommute(s, key, KeyIs(key, c));
    SortBySortedIsIdentity(f, key);
  }

  /** Concatenation is associative; stated once for the proofs that regroup strings. */
  lemma ConcatAssociative<T>(a: seq<T>, b: seq<T>, c: seq<T>)
    ensures (a + b) + c == a + (b + c)
  {
  }
}
