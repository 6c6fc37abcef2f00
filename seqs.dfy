/**
 * `Array.prototype.sort` with a comparator, `slice` and friends. The club
 * sorts with comparators that return 0 on ties, and JavaScript's sort is
 * stable, so the sort here is a stable insertion sort parameterised by
 * "comes strictly before".
 */
module Seqs {

  /** The "comes strictly before" relation of a comparator is a strict order. */
  ghost predicate StrictOrder<T(!new)>(before: (T, T) -> bool)
  {
    (forall a :: !before(a, a))
    && (forall a, b, c :: before(a, b) && before(b, c) ==> before(a, c))
  }

  /** `le` is a total preorder: any two elements compare, and comparison chains. */
  ghost predicate TotalPreorder<T(!new)>(le: (T, T) -> bool)
  {
    (forall a, b :: le(a, b) || le(b, a))
    && (forall a, b, c :: le(a, b) && le(b, c) ==> le(a, c))
  }

  /** Every non-empty finite set has a least element under a total preorder. */
  lemma {:induction false} LeastExists<T(!new)>(s: set<T>, le: (T, T) -> bool)
    requires s != {}
    requires TotalPreorder(le)
    ensures exists m :: m in s && forall y :: y in s ==> le(m, y)
  {
    var x: T :| x in s;
    if s == {x} {
      assert forall y :: y in s ==> y == x;
      assert le(x, x);
    } else {
      LeastExists(s - {x}, le);
      var m :| m in s - {x} && forall y :: y in s - {x} ==> le(m, y);
      var w := if le(x, m) then x else m;
      forall y | y in s ensures le(w, y) {
        if y != x {
          assert y in s - {x};
        } else {
          assert le(x, x);
        }
      }
    }
  }

  /** No element comes strictly before an element to its left. */
  predicate SortedBy<T>(s: seq<T>, before: (T, T) -> bool)
  {
    forall i, j :: 0 <= i < j < |s| ==> !before(s[j], s[i])
  }

  /** Places `x` in front of the first element that `x` comes strictly before. */
  function Insert<T>(x: T, s: seq<T>, before: (T, T) -> bool): (r: seq<T>)
    ensures multiset(r) == multiset(s) + multiset{x}
    ensures |r| == |s| + 1
  {
    if s == [] || before(x, s[0]) then [x] + s
    else
      assert s == [s[0]] + s[1..];
      [s[0]] + Insert(x, s[1..], before)
  }

  lemma {:induction false} InsertSorted<T(!new)>(x: T, s: seq<T>, before: (T, T) -> bool)
    requires StrictOrder(before)
    requires SortedBy(s, before)
    ensures SortedBy(Insert(x, s, before), before)
  {
    if s == [] {
    } else if before(x, s[0]) {
      var r := [x] + s;
      forall i, j | 0 <= i < j < |r| ensures !before(r[j], r[i]) {
        if i == 0 && j > 1 {
          assert r[j] == s[j - 1];
        }
      }
    } else {
      InsertSorted(x, s[1..], before);
      var t := Insert(x, s[1..], before);
      var r := [s[0]] + t;
      assert forall y :: y in multiset(t) ==> y == x || y in multiset(s[1..]);
      forall i, j | 0 <= i < j < |r| ensures !before(r[j], r[i]) {
        if i == 0 {
          assert r[j] in multiset(t);
          if r[j] != x {
            var k :| 1 <= k < |s| && s[k] == r[j];
          }
        }
      }
    }
  }

  /** A stable sort: each element is inserted, in input order, after the ones it does not come before. */
  function Sort<T>(s: seq<T>, before: (T, T) -> bool): (r: seq<T>)
    ensures multiset(r) == multiset(s)
    ensures |r| == |s|
  {
    if s == [] then []
    else
      assert s == s[..|s| - 1] + [s[|s| - 1]];
      Insert(s[|s| - 1], Sort(s[..|s| - 1], before), before)
  }

  lemma {:induction false} SortSorted<T(!new)>(s: seq<T>, before: (T, T) -> bool)
    requires StrictOrder(before)
    ensures SortedBy(Sort(s, before), before)
  {
    if s != [] {
      SortSorted(s[..|s| - 1], before);
      InsertSorted(s[|s| - 1], Sort(s[..|s| - 1], before), before);
    }
  }

  /** Sorting a list with one more element at the end inserts that element into the sorted list. */
  lemma SortSnoc<T>(s: seq<T>, x: T, before: (T, T) -> bool)
    ensures Sort(s + [x], before) == Insert(x, Sort(s, before), before)
  {
    assert (s + [x])[..|s|] == s;
  }

  /** `s.filter(keep)`: the elements that pass, in their order. */
  function Filter<T(!new)>(s: seq<T>, keep: T -> bool): (r: seq<T>)
    ensures |r| <= |s|
    ensures forall x :: x in r <==> x in s && keep(x)
    ensures (forall i :: 0 <= i < |s| ==> keep(s[i])) ==> r == s
  {
    if s == [] then []
    else
      assert s == s[..|s| - 1] + [s[|s| - 1]];
      var rest := Filter(s[..|s| - 1], keep);
      if keep(s[|s| - 1]) then rest + [s[|s| - 1]] else rest
  }

  /** Every element is related by `lt` to every later one. */
  predicate Chain<T>(s: seq<T>, lt: (T, T) -> bool)
  {
    forall i, j :: 0 <= i < j < |s| ==> lt(s[i], s[j])
  }

  /** Filtering keeps the order: a chain under `lt` stays a chain. */
  lemma {:induction false} FilterChain<T(!new)>(s: seq<T>, keep: T -> bool, lt: (T, T) -> bool)
    requires Chain(s, lt)
    ensures Chain(Filter(s, keep), lt)
  {
    if s != [] {
      var n := |s| - 1;
      var init := s[..n];
      assert Chain(init, lt) by {
        forall i, j | 0 <= i < j < |init| ensures lt(init[i], init[j]) {
          assert init[i] == s[i] && init[j] == s[j];
        }
      }
      FilterChain(init, keep, lt);
      var rest := Filter(init, keep);
      assert Filter(s, keep) == if keep(s[n]) then rest + [s[n]] else rest;
      if keep(s[n]) {
        forall x | x in rest ensures lt(x, s[n]) {
          var i :| 0 <= i < |init| && init[i] == x;
          assert s[i] == x;
        }
        SnocChain(rest, s[n], lt);
      }
    }
  }

  /** In a non-empty chain every element is the last one or below it. */
  lemma ChainLast<T>(s: seq<T>, lt: (T, T) -> bool)
    ensures Chain(s, lt) && s != [] ==> forall x :: x in s ==> x == s[|s| - 1] || lt(x, s[|s| - 1])
  {
    if Chain(s, lt) && s != [] {
      forall x | x in s ensures x == s[|s| - 1] || lt(x, s[|s| - 1]) {
        var i :| 0 <= i < |s| && s[i] == x;
      }
    }
  }

  /** A chain followed by an element above all of it is a chain. */
  lemma SnocChain<T>(s: seq<T>, x: T, lt: (T, T) -> bool)
    requires Chain(s, lt) && forall y :: y in s ==> lt(y, x)
    ensures Chain(s + [x], lt)
  {
    var r := s + [x];
    forall i, j | 0 <= i < j < |r| ensures lt(r[i], r[j]) {
      assert r[i] == s[i] && s[i] in s;
      if j < |s| {
        assert r[j] == s[j];
      }
    }
  }

  /** The first `n` elements of a sorted list come before none of the others' predecessors. */
  lemma {:induction false} PrefixOfSorted<T(!new)>(s: seq<T>, n: nat, before: (T, T) -> bool)
    requires SortedBy(s, before)
    requires n <= |s|
    ensures multiset(s) - multiset(s[..n]) == multiset(s[n..])
    ensures forall x, y :: x in multiset(s[n..]) && y in s[..n] ==> !before(x, y)
  {
    assert s == s[..n] + s[n..];
    assert multiset(s) == multiset(s[..n]) + multiset(s[n..]);
    forall x, y | x in multiset(s[n..]) && y in s[..n] ensures !before(x, y) {
      var j :| 0 <= j < |s[n..]| && s[n..][j] == x;
      var i :| 0 <= i < n && s[i] == y;
      assert s[n + j] == x;
    }
  }

  /** The comparator `(a, b) => key(b) - key(a)`: `a` comes first when its key is greater. */
  function Greater<T>(key: T -> int): (T, T) -> bool
  {
    (a: T, b: T) => key(a) > key(b)
  }

  lemma GreaterIsStrictOrder<T(!new)>(key: T -> int)
    ensures StrictOrder(Greater(key))
  {
  }

  /** The guarantees of a sorted list's first `n` elements under `Greater(key)`. */
  lemma {:induction false} TopOfSorted<T(!new)>(sorted: seq<T>, key: T -> int, n: nat)
    requires SortedBy(sorted, Greater(key))
    ensures var r := Take(sorted, n);
      && (forall i, j :: 0 <= i < j < |r| ==> key(r[i]) >= key(r[j]))
      && multiset(r) <= multiset(sorted)
      && (forall x, y :: x in multiset(sorted) - multiset(r) && y in r ==> key(x) <= key(y))
  {
    var m := if |sorted| < n then |sorted| else n;
    PrefixOfSorted(sorted, m, Greater(key));
    assert Take(sorted, n) == sorted[..m];
    assert sorted == sorted[..m] + sorted[m..];
    assert multiset(sorted) == multiset(sorted[..m]) + multiset(sorted[m..]);
  }

  /**
   * `[...s].sort((a, b) => key(b) - key(a)).slice(0, n)`: the `n` elements with the
   * greatest keys, greatest first. The result is as long as it can be, ordered by
   * non-increasing key and drawn from `s`; `TopByLeavesNoGreater` says what is left out.
   */
  function TopBy<T(!new)>(s: seq<T>, key: T -> int, n: nat): (r: seq<T>)
    ensures |r| == if |s| < n then |s| else n
    ensures forall i, j :: 0 <= i < j < |r| ==> key(r[i]) >= key(r[j])
    ensures multiset(r) <= multiset(s)
  {
    GreaterIsStrictOrder(key);
    SortSorted(s, Greater(key));
    TopOfSorted(Sort(s, Greater(key)), key, n);
    Take(Sort(s, Greater(key)), n)
  }

  /** No element left out of `TopBy` has a greater key than one kept. */
  lemma TopByLeavesNoGreater<T(!new)>(s: seq<T>, key: T -> int, n: nat, x: T, y: T)
    requires x in multiset(s) - multiset(TopBy(s, key, n)) && y in TopBy(s, key, n)
    ensures key(x) <= key(y)
  {
    GreaterIsStrictOrder(key);
    SortSorted(s, Greater(key));
    TopOfSorted(Sort(s, Greater(key)), key, n);
  }

  /** A prefix grows by the next element. */
  lemma PrefixExtend<T>(s: seq<T>, i: nat)
    requires i < |s|
    ensures s[..i] + [s[i]] == s[..i + 1]
  {
  }

  /** Concatenation is associative. */
  lemma AppendAssoc<T>(a: seq<T>, b: seq<T>, c: seq<T>)
    ensures (a + b) + c == a + (b + c)
  {
  }

  /** `s.slice(0, n)`. */
  function Take<T>(s: seq<T>, n: int): (r: seq<T>)
    ensures |r| == if n < 0 then 0 else if n < |s| then n else |s|
    ensures forall i :: 0 <= i < |r| ==> r[i] == s[i]
  {
    if n <= 0 then [] else if n < |s| then s[..n] else s
  }

  /** `s.slice(start)`: a negative start counts back from the end; either is clamped to the list. */
  function SliceFrom<T>(s: seq<T>, start: int): (r: seq<T>)
    ensures |r| <= |s| && r == s[|s| - |r|..]
    ensures 0 <= start ==> |r| == if start < |s| then |s| - start else 0
    ensures start < 0 ==> |r| == if -start < |s| then -start else |s|
  {
    if start >= 0 then (if start < |s| then s[start..] else [])
    else if |s| + start > 0 then s[|s| + start..] else s
  }
}
