/** The collection operations the queries are made of: filtering, a stable
    sort on an integer key, and the skip/limit slice of a result list. */
module Seqs {

  /** Array.prototype.filter, and a document store's match step: the
      elements of `s` satisfying `p`, in their order in `s`. */
  function Filter<T>(s: seq<T>, p: T -> bool): (r: seq<T>)
    ensures |r| <= |s|
    ensures forall i :: 0 <= i < |r| ==> r[i] in s && p(r[i])
    ensures forall i :: 0 <= i < |s| && p(s[i]) ==> s[i] in r
  {
    if s == [] then []
    else (if p(s[0]) then [s[0]] else []) + Filter(s[1..], p)
  }

  /** Filtering works piecewise, so it keeps the order of what it keeps. */
  lemma {:induction false} FilterAppend<T>(a: seq<T>, b: seq<T>, p: T -> bool)
    ensures Filter(a + b, p) == Filter(a, p) + Filter(b, p)
  {
    if a != [] {
      FilterAppend(a[1..], b, p);
      var head := if p(a[0]) then [a[0]] else [];
      assert (a + b)[0] == a[0];
      assert (a + b)[1..] == a[1..] + b;
      assert Filter(a + b, p) == head + Filter(a[1..] + b, p);
      assert Filter(a, p) == head + Filter(a[1..], p);
    } else {
      assert a + b == b;
    }
  }

  /** Filtering with a condition that every element meets changes nothing. */
  lemma {:induction false} FilterAll<T>(s: seq<T>, p: T -> bool)
    requires forall i :: 0 <= i < |s| ==> p(s[i])
    ensures Filter(s, p) == s
  {
    if s != [] {
      FilterAll(s[1..], p);
    }
  }

  /** Two conditions that agree on every element filter alike. */
  lemma {:induction false} FilterSame<T>(s: seq<T>, p: T -> bool, q: T -> bool)
    requires forall x :: p(x) <==> q(x)
    ensures Filter(s, p) == Filter(s, q)
  {
    if s != [] {
      FilterSame(s[1..], p, q);
    }
  }

  predicate SortedBy<T>(s: seq<T>, key: T -> int) {
    forall i, j :: 0 <= i < j < |s| ==> key(s[i]) <= key(s[j])
  }

  /** Puts `x` into sorted `s` in front of the first element whose key is not
      smaller; elements with equal keys keep their relative order. */
  function Insert<T>(x: T, s: seq<T>, key: T -> int): (r: seq<T>)
    requires SortedBy(s, key)
    ensures SortedBy(r, key)
    ensures multiset(r) == multiset(s) + multiset{x}
    ensures forall i :: 0 <= i < |r| ==> r[i] == x || r[i] in s
  {
    if s == [] then [x]
    else if key(x) <= key(s[0]) then [x] + s
    else
      var tail := Insert(x, s[1..], key);
      SortedAfterHead(x, s, tail, key);
      assert s == [s[0]] + s[1..];
      assert multiset([s[0]] + tail) == multiset{s[0]} + multiset(tail);
      [s[0]] + tail
  }

  /** The step of `Insert` that keeps the head of `s` in front. */
  lemma SortedAfterHead<T>(x: T, s: seq<T>, tail: seq<T>, key: T -> int)
    requires SortedBy(s, key) && s != [] && key(s[0]) < key(x) && SortedBy(tail, key)
    requires forall i :: 0 <= i < |tail| ==> tail[i] == x || tail[i] in s[1..]
    ensures SortedBy([s[0]] + tail, key)
  {
    forall i | 0 <= i < |tail| ensures key(s[0]) <= key(tail[i]) {
      if tail[i] != x {
        assert tail[i] in s[1..];
      }
    }
  }

  /** A stable sort of `s` by ascending `key` (insertion sort). */
  function SortBy<T>(s: seq<T>, key: T -> int): (r: seq<T>)
    ensures SortedBy(r, key)
    ensures multiset(r) == multiset(s)
  {
    if s == [] then []
    else
      assert s == [s[0]] + s[1..];
      Insert(s[0], SortBy(s[1..], key), key)
  }

  /** The slice `skip`, `skip + 1`, ... of at most `take` elements, as a
      cursor with skip and limit yields it. */
  function Slice<T>(s: seq<T>, skip: nat, take: nat): (r: seq<T>)
    ensures |r| <= take
    ensures skip < |s| ==> r == s[skip..if skip + take <= |s| then skip + take else |s|]
    ensures |s| <= skip ==> r == []
  {
    if |s| <= skip then [] else if skip + take <= |s| then s[skip..skip + take] else s[skip..]
  }

  /** A slice holds elements of `s`, in their order in `s`. */
  /** The first `n` of a sorted sequence are its least elements: the slice
      is the sequence's start, as long as `n` allows, and whatever it leaves
      out has a key no smaller than any it keeps. */
  lemma SoonestFirst<T>(s: seq<T>, n: nat, key: T -> int)
    requires SortedBy(s, key)
    ensures var r := Slice(s, 0, n);
      && |r| == (if |s| < n then |s| else n)
      && r == s[..|r|]
      && forall x, i :: x in s && x !in r && 0 <= i < |r| ==> key(r[i]) <= key(x)
  {
    var r := Slice(s, 0, n);
    forall x, i | x in s && x !in r && 0 <= i < |r| ensures key(r[i]) <= key(x) {
      var j :| 0 <= j < |s| && s[j] == x;
      assert j >= |r|;
      assert r[i] == s[i];
    }
  }

  lemma SliceOfSorted<T>(s: seq<T>, skip: nat, take: nat, key: T -> int)
    ensures forall x :: x in Slice(s, skip, take) ==> x in s
    ensures SortedBy(s, key) ==> SortedBy(Slice(s, skip, take), key)
  {
    var r := Slice(s, skip, take);
    forall x | x in r ensures x in s {
      var i :| 0 <= i < |r| && r[i] == x;
      assert r[i] == s[skip + i];
    }
    if SortedBy(s, key) {
      forall i, j | 0 <= i < j < |r| ensures key(r[i]) <= key(r[j]) {
        assert r[i] == s[skip + i] && r[j] == s[skip + j];
      }
    }
  }

  /** The values of `m` at the keys of `order`, in that order: a collection's
      documents in their natural order. */
  function InOrder<K, V>(order: seq<K>, m: map<K, V>): (r: seq<V>)
    requires forall i :: 0 <= i < |order| ==> order[i] in m
    ensures |r| == |order| && forall i :: 0 <= i < |order| ==> r[i] == m[order[i]]
  {
    if order == [] then [] else [m[order[0]]] + InOrder(order[1..], m)
  }

  /** An element of `Sort(Filter(s, p))` is exactly an element of `s` that satisfies `p`. */
  lemma SortFilterMembers<T>(s: seq<T>, p: T -> bool, key: T -> int)
    ensures forall x :: x in SortBy(Filter(s, p), key) <==> x in s && p(x)
  {
    var f := Filter(s, p);
    var r := SortBy(f, key);
    forall x | x in r ensures x in s && p(x) {
      assert x in multiset(r);
      assert x in f;
    }
    forall x | x in s && p(x) ensures x in r {
      var i :| 0 <= i < |s| && s[i] == x;
      assert x in f;
      assert x in multiset(f);
    }
  }

  /** No element occurs twice. */
  predicate Distinct<T(==)>(s: seq<T>) {
    forall i, j :: 0 <= i < j < |s| ==> s[i] != s[j]
  }

  /** `s` without its element at index `i`. */
  function RemoveAt<T>(s: seq<T>, i: nat): (r: seq<T>)
    requires i < |s|
    ensures |r| == |s| - 1
    ensures forall j :: 0 <= j < |r| ==> r[j] == if j < i then s[j] else s[j + 1]
  {
    s[..i] + s[i + 1..]
  }

  /** Removing the one occurrence of an element from a distinct sequence
      keeps every other element, drops that one, and stays distinct. */
  lemma RemoveAtDistinct<T>(s: seq<T>, i: nat)
    requires i < |s| && Distinct(s)
    ensures Distinct(RemoveAt(s, i))
    ensures forall x :: x in RemoveAt(s, i) <==> x in s && x != s[i]
  {
    var r := RemoveAt(s, i);
    forall x | x in s && x != s[i] ensures x in r {
      var k :| 0 <= k < |s| && s[k] == x;
      assert r[if k < i then k else k - 1] == x;
    }
    forall x | x in r ensures x in s && x != s[i] {
      var k :| 0 <= k < |r| && r[k] == x;
      assert x == s[if k < i then k else k + 1];
    }
  }

  /** ceil(n / d) for a positive divisor. */
  function CeilDiv(n: nat, d: nat): (q: nat)
    requires d > 0
    ensures q * d >= n
    ensures q > 0 ==> (q - 1) * d < n
  {
    var q := (n + d - 1) / d;
    assert q * d + (n + d - 1) % d == n + d - 1;
    q
  }

  /** Pages 1 to `n` of `s` at `limit` elements per page, concatenated. */
  function PagesUpTo<T>(s: seq<T>, limit: nat, n: nat): seq<T> {
    if n == 0 then [] else PagesUpTo(s, limit, n - 1) + Slice(s, (n - 1) * limit, limit)
  }

  /** The first `n` pages are the first `n * limit` elements. */
  lemma {:induction false} PagesUpToPrefix<T>(s: seq<T>, limit: nat, n: nat)
    ensures PagesUpTo(s, limit, n) == s[..if n * limit <= |s| then n * limit else |s|]
  {
    if n > 0 {
      PagesUpToPrefix(s, limit, n - 1);
      assert (n - 1) * limit + limit == n * limit;
    }
  }

  /** Walking pages 1 .. ceil(|s| / limit) yields every element exactly once, in order. */
  lemma PagesCoverAll<T>(s: seq<T>, limit: nat)
    requires limit > 0
    ensures PagesUpTo(s, limit, CeilDiv(|s|, limit)) == s
  {
    PagesUpToPrefix(s, limit, CeilDiv(|s|, limit));
  }

  /** Pages past the last one are empty, and the last one is not. */
  lemma PagesPastEndEmpty<T>(s: seq<T>, limit: nat, page: nat)
    requires limit > 0 && page >= 1
    ensures page > CeilDiv(|s|, limit) ==> Slice(s, (page - 1) * limit, limit) == []
    ensures page == CeilDiv(|s|, limit) ==> Slice(s, (page - 1) * limit, limit) != []
  {
    var q := CeilDiv(|s|, limit);
    if page > q {
      MulMonotone(q, page - 1, limit);
    }
  }

  lemma MulMonotone(a: nat, b: nat, c: nat)
    requires a <= b
    ensures a * c <= b * c
  {
    assert b * c == a * c + (b - a) * c;
  }
}
