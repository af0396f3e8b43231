/** Sequence operations that the source gets from `Array.prototype.filter`,
    `Array.prototype.sort` and SQL's `WHERE` / `ORDER BY`. */
module Seqs {

  /** The elements of `s` that satisfy `p`, in their original order. */
  function Filter<T(!new)>(s: seq<T>, p: T -> bool): (r: seq<T>)
    ensures |r| <= |s|
    ensures forall x :: x in r <==> x in s && p(x)
  {
    if s == [] then []
    else
      assert s == [s[0]] + s[1..];
      (if p(s[0]) then [s[0]] else []) + Filter(s[1..], p)
  }

  /** Filtering distributes over concatenation: the kept elements keep their order. */
  lemma {:induction false} FilterAppend<T(!new)>(a: seq<T>, b: seq<T>, p: T -> bool)
    ensures Filter(a + b, p) == Filter(a, p) + Filter(b, p)
  {
    if a == [] {
      assert a + b == b;
    } else {
      assert (a + b)[0] == a[0];
      assert (a + b)[1..] == a[1..] + b;
      FilterAppend(a[1..], b, p);
    }
  }

  /** Filtering one more element at the end. */
  lemma FilterSnoc<T(!new)>(s: seq<T>, x: T, p: T -> bool)
    ensures Filter(s + [x], p) == Filter(s, p) + (if p(x) then [x] else [])
  {
    FilterAppend(s, [x], p);
    assert [x][1..] == [];
  }

  /** A filter that every element passes changes nothing. */
  lemma {:induction false} FilterKeepsAll<T(!new)>(s: seq<T>, p: T -> bool)
    requires forall i :: 0 <= i < |s| ==> p(s[i])
    ensures Filter(s, p) == s
  {
    if s != [] {
      FilterKeepsAll(s[1..], p);
    }
  }

  /** A pairwise ordering of the input (ids increasing, say) survives filtering. */
  lemma {:induction false} FilterKeepsOrder<T(!new)>(s: seq<T>, p: T -> bool, lt: (T, T) -> bool)
    requires SortedBy(s, lt)
    ensures SortedBy(Filter(s, p), lt)
  {
    if s != [] {
      var tail := Filter(s[1..], p);
      FilterKeepsOrder(s[1..], p, lt);
      forall y | y in tail ensures lt(s[0], y) {
        var k :| 0 <= k < |s[1..]| && s[1..][k] == y;
        assert s[k + 1] == y;
      }
      var r := Filter(s, p);
      if p(s[0]) {
        assert r == [s[0]] + tail;
        forall i, j | 0 <= i < j < |r| ensures lt(r[i], r[j]) {
          if i == 0 {
            assert r[0] == s[0] && r[j] == tail[j - 1] && r[j] in tail;
          } else {
            assert r[i] == tail[i - 1] && r[j] == tail[j - 1];
          }
        }
      } else {
        assert r == tail;
      }
    }
  }

  /** Two filters that agree position by position keep the same number of elements. */
  lemma {:induction false} FilterLengthPointwise<T(!new), U(!new)>(s: seq<T>, p: T -> bool, t: seq<U>, q: U -> bool)
    requires |s| == |t|
    requires forall i :: 0 <= i < |s| ==> p(s[i]) == q(t[i])
    ensures |Filter(s, p)| == |Filter(t, q)|
  {
    if s != [] {
      assert p(s[0]) == q(t[0]);
      FilterLengthPointwise(s[1..], p, t[1..], q);
    }
  }

  /** A predicate and its negation split a sequence between them. */
  lemma {:induction false} FilterPartition<T(!new)>(s: seq<T>, p: T -> bool, q: T -> bool)
    requires forall x :: q(x) == !p(x)
    ensures |Filter(s, p)| + |Filter(s, q)| == |s|
  {
    if s != [] {
      assert q(s[0]) == !p(s[0]);
      FilterPartition(s[1..], p, q);
    }
  }

  /** `ge` relates every two values one way or the other. */
  ghost predicate Connex<T(!new)>(ge: (T, T) -> bool) {
    forall a, b :: ge(a, b) || ge(b, a)
  }

  /** `ge` is transitive. */
  ghost predicate Transitive<T(!new)>(ge: (T, T) -> bool) {
    forall a, b, c :: ge(a, b) && ge(b, c) ==> ge(a, c)
  }

  /** Every element is `ge` every element after it: the order a descending sort yields
      (and, with `ge` a strict order on ids, the order of an AUTOINCREMENT table). */
  ghost predicate SortedBy<T(!new)>(s: seq<T>, ge: (T, T) -> bool) {
    forall i, j :: 0 <= i < j < |s| ==> ge(s[i], s[j])
  }

  /** Inserts `x` into a sequence sorted by `ge`, before the first element it is `ge` of. */
  function InsertBy<T(!new)>(x: T, s: seq<T>, ge: (T, T) -> bool): (r: seq<T>)
    requires Connex(ge) && Transitive(ge)
    requires SortedBy(s, ge)
    ensures SortedBy(r, ge)
    ensures forall y :: y in r <==> y == x || y in s
    ensures |r| == |s| + 1
  {
    if s == [] || ge(x, s[0]) then
      [x] + s
    else
      var head := s[0];
      var tail := s[1..];
      assert s == [head] + tail;
      var rest := InsertBy(x, tail, ge);
      assert ge(head, x);
      var r := [head] + rest;
      forall i, j | 0 <= i < j < |r| ensures ge(r[i], r[j]) {
        assert r[j] == rest[j - 1] && r[j] in rest;
        if i == 0 {
          if r[j] != x {
            var k :| 0 <= k < |tail| && tail[k] == r[j];
            assert s[k + 1] == r[j];
          }
        } else {
          assert r[i] == rest[i - 1];
        }
      }
      r
  }

  /** Insertion adds exactly `x`. */
  lemma {:induction false} InsertByPermutes<T(!new)>(x: T, s: seq<T>, ge: (T, T) -> bool)
    requires Connex(ge) && Transitive(ge)
    requires SortedBy(s, ge)
    ensures multiset(InsertBy(x, s, ge)) == multiset(s) + multiset{x}
  {
    if s != [] && !ge(x, s[0]) {
      assert s == [s[0]] + s[1..];
      InsertByPermutes(x, s[1..], ge);
    }
  }

  /** A sorted sequence's tail is sorted and follows its head. */
  lemma SortedTail<T(!new)>(s: seq<T>, ge: (T, T) -> bool)
    requires s != [] && SortedBy(s, ge)
    ensures SortedBy(s[1..], ge)
    ensures forall j :: 0 <= j < |s[1..]| ==> ge(s[0], s[1..][j])
  {
    forall i, j | 0 <= i < j < |s[1..]| ensures ge(s[1..][i], s[1..][j]) {
      assert ge(s[i + 1], s[j + 1]);
    }
    forall j | 0 <= j < |s[1..]| ensures ge(s[0], s[1..][j]) {
      assert ge(s[0], s[j + 1]);
    }
  }

  /** A stable insertion sort into descending order by `ge`. */
  function SortBy<T(!new)>(s: seq<T>, ge: (T, T) -> bool): (r: seq<T>)
    requires Connex(ge) && Transitive(ge)
    ensures SortedBy(r, ge)
    ensures multiset(r) == multiset(s)
    ensures forall y :: y in r <==> y in s
    ensures |r| == |s|
  {
    if s == [] then []
    else
      assert s == [s[0]] + s[1..];
      var sorted := SortBy(s[1..], ge);
      InsertByPermutes(s[0], sorted, ge);
      InsertBy(s[0], sorted, ge)
  }
}
