/** A stable sort by a small integer rank, highest rank first. This is what
    `items.sort(key=..., reverse=True)` does on the page (app.py line 117) when
    the key only takes the values 0 to 3. The rank is a parameter so that the
    proofs do not depend on how a finding's rank is computed. */
module StableRankSort {

  /** Every element of `s` has a rank of at most 3. */
  ghost predicate Bounded<T>(rank: T -> nat, s: seq<T>)
  {
    forall i :: 0 <= i < |s| ==> rank(s[i]) <= 3
  }

  /** The elements of rank `k`, in their order in `s`. */
  function WithRank<T>(rank: T -> nat, k: nat, s: seq<T>): (r: seq<T>)
    ensures |r| <= |s|
  {
    if |s| == 0 then []
    else (if rank(s[0]) == k then [s[0]] else []) + WithRank(rank, k, s[1..])
  }

  /** The result of a stable sort in descending rank order: the rank-3
      elements, then rank 2, rank 1 and rank 0, each group in its original
      order. */
  function ByRank<T>(rank: T -> nat, s: seq<T>): seq<T>
  {
    WithRank(rank, 3, s) + WithRank(rank, 2, s) + WithRank(rank, 1, s) + WithRank(rank, 0, s)
  }

  /** Ranks never increase from left to right. */
  ghost predicate RankDescending<T>(rank: T -> nat, s: seq<T>)
  {
    forall i, j :: 0 <= i < j < |s| ==> rank(s[i]) >= rank(s[j])
  }

  /** Every rank has the same sublist in `s` and `t`: the two lists hold the
      same elements, and each rank's elements are in the same order. */
  ghost predicate SameRanks<T>(rank: T -> nat, s: seq<T>, t: seq<T>)
  {
    forall k: nat :: WithRank(rank, k, s) == WithRank(rank, k, t)
  }

  // ---------------------------------------------------------------- WithRank

  /** `WithRank` keeps exactly the elements of rank `k`. */
  lemma {:induction false} WithRankMembers<T>(rank: T -> nat, k: nat, s: seq<T>, x: T)
    ensures x in WithRank(rank, k, s) <==> x in s && rank(x) == k
  {
    if |s| != 0 {
      WithRankMembers(rank, k, s[1..], x);
      assert s == [s[0]] + s[1..];
    }
  }

  lemma {:induction false} WithRankRanks<T>(rank: T -> nat, k: nat, s: seq<T>)
    ensures forall i :: 0 <= i < |WithRank(rank, k, s)| ==> rank(WithRank(rank, k, s)[i]) == k
  {
    if |s| != 0 {
      WithRankRanks(rank, k, s[1..]);
    }
  }

  lemma {:induction false} WithRankEmpty<T>(rank: T -> nat, k: nat, s: seq<T>)
    requires forall i :: 0 <= i < |s| ==> rank(s[i]) != k
    ensures WithRank(rank, k, s) == []
  {
    if |s| != 0 {
      WithRankEmpty(rank, k, s[1..]);
    }
  }

  lemma WithRankCons<T>(rank: T -> nat, k: nat, x: T, u: seq<T>)
    ensures WithRank(rank, k, [x] + u) == (if rank(x) == k then [x] else []) + WithRank(rank, k, u)
  {
    assert ([x] + u)[1..] == u;
  }

  lemma {:induction false} WithRankConcat<T>(rank: T -> nat, k: nat, a: seq<T>, b: seq<T>)
    ensures WithRank(rank, k, a + b) == WithRank(rank, k, a) + WithRank(rank, k, b)
  {
    if |a| != 0 {
      WithRankConcat(rank, k, a[1..], b);
      WithRankCons(rank, k, a[0], a[1..] + b);
      assert a == [a[0]] + a[1..];
      assert a + b == [a[0]] + (a[1..] + b);
    } else {
      assert a + b == b;
    }
  }

  lemma {:induction false} WithRankOfWithRank<T>(rank: T -> nat, k: nat, j: nat, s: seq<T>)
    ensures WithRank(rank, k, WithRank(rank, j, s)) == if k == j then WithRank(rank, j, s) else []
  {
    if |s| != 0 {
      WithRankOfWithRank(rank, k, j, s[1..]);
      var head := if rank(s[0]) == j then [s[0]] else [];
      WithRankConcat(rank, k, head, WithRank(rank, j, s[1..]));
    }
  }

  /** How often an element occurs among the rank-`k` elements. */
  lemma {:induction false} CountWithRank<T>(rank: T -> nat, k: nat, s: seq<T>, x: T)
    ensures multiset(WithRank(rank, k, s))[x] == if rank(x) == k then multiset(s)[x] else 0
  {
    if |s| != 0 {
      var y, u := s[0], s[1..];
      CountWithRank(rank, k, u, x);
      assert s == [y] + u;
      var head := if rank(y) == k then [y] else [];
      assert WithRank(rank, k, s) == head + WithRank(rank, k, u);
      assert multiset(WithRank(rank, k, s))[x] == multiset(head)[x] + multiset(WithRank(rank, k, u))[x];
      assert multiset(s)[x] == multiset([y])[x] + multiset(u)[x];
    }
  }

  // ---------------------------------------------------------------- ByRank

  /** Stability: the elements of one rank keep their relative order. */
  lemma ByRankStable<T>(rank: T -> nat, s: seq<T>, k: nat)
    requires Bounded(rank, s)
    ensures WithRank(rank, k, ByRank(rank, s)) == WithRank(rank, k, s)
  {
    var w3, w2, w1, w0 := WithRank(rank, 3, s), WithRank(rank, 2, s), WithRank(rank, 1, s), WithRank(rank, 0, s);
    WithRankConcat(rank, k, w3 + w2 + w1, w0);
    WithRankConcat(rank, k, w3 + w2, w1);
    WithRankConcat(rank, k, w3, w2);
    WithRankOfWithRank(rank, k, 3, s);
    WithRankOfWithRank(rank, k, 2, s);
    WithRankOfWithRank(rank, k, 1, s);
    WithRankOfWithRank(rank, k, 0, s);
    var v3, v2, v1, v0 := WithRank(rank, k, w3), WithRank(rank, k, w2), WithRank(rank, k, w1), WithRank(rank, k, w0);
    assert WithRank(rank, k, ByRank(rank, s)) == v3 + v2 + v1 + v0;
    if k == 3 {
      assert v2 == [] && v1 == [] && v0 == [];
      assert v3 + v2 + v1 + v0 == v3;
    } else if k == 2 {
      assert v3 == [] && v1 == [] && v0 == [];
      assert v3 + v2 + v1 + v0 == v2;
    } else if k == 1 {
      assert v3 == [] && v2 == [] && v0 == [];
      assert v3 + v2 + v1 + v0 == v1;
    } else if k == 0 {
      assert v3 == [] && v2 == [] && v1 == [];
      assert v3 + v2 + v1 + v0 == v0;
    } else {
      assert v3 == [] && v2 == [] && v1 == [] && v0 == [];
      WithRankEmpty(rank, k, s);
    }
  }

  lemma ConcatDescending<T>(rank: T -> nat, a: seq<T>, b: seq<T>, m: nat)
    requires RankDescending(rank, a) && RankDescending(rank, b)
    requires forall i :: 0 <= i < |a| ==> rank(a[i]) >= m
    requires forall i :: 0 <= i < |b| ==> rank(b[i]) <= m
    ensures RankDescending(rank, a + b)
  {
    forall i, j | 0 <= i < j < |a + b| ensures rank((a + b)[i]) >= rank((a + b)[j]) {
      if j >= |a| && i < |a| {
        assert (a + b)[i] == a[i];
        assert (a + b)[j] == b[j - |a|];
      }
    }
  }

  /** Ranks are non-increasing after sorting. */
  lemma ByRankDescending<T>(rank: T -> nat, s: seq<T>)
    ensures RankDescending(rank, ByRank(rank, s))
  {
    var w3, w2, w1, w0 := WithRank(rank, 3, s), WithRank(rank, 2, s), WithRank(rank, 1, s), WithRank(rank, 0, s);
    WithRankRanks(rank, 3, s);
    WithRankRanks(rank, 2, s);
    WithRankRanks(rank, 1, s);
    WithRankRanks(rank, 0, s);
    ConcatDescending(rank, w3, w2, 2);
    ConcatDescending(rank, w3 + w2, w1, 1);
    ConcatDescending(rank, w3 + w2 + w1, w0, 0);
  }

  /** Sorting only reorders: the sorted list is a permutation of its input. */
  lemma ByRankPermutation<T>(rank: T -> nat, s: seq<T>)
    requires Bounded(rank, s)
    ensures multiset(ByRank(rank, s)) == multiset(s)
  {
    forall x ensures multiset(ByRank(rank, s))[x] == multiset(s)[x] {
      CountByRank(rank, s, x);
    }
    MultisetExt(ByRank(rank, s), s);
  }

  lemma MultisetExt<T>(a: seq<T>, b: seq<T>)
    requires forall x :: multiset(a)[x] == multiset(b)[x]
    ensures multiset(a) == multiset(b)
  {
  }

  lemma CountByRank<T>(rank: T -> nat, s: seq<T>, x: T)
    requires Bounded(rank, s)
    ensures multiset(ByRank(rank, s))[x] == multiset(s)[x]
  {
    var w3, w2, w1, w0 := WithRank(rank, 3, s), WithRank(rank, 2, s), WithRank(rank, 1, s), WithRank(rank, 0, s);
    assert multiset(ByRank(rank, s)) == multiset(w3) + multiset(w2) + multiset(w1) + multiset(w0);
    CountWithRank(rank, 3, s, x);
    CountWithRank(rank, 2, s, x);
    CountWithRank(rank, 1, s, x);
    CountWithRank(rank, 0, s, x);
    if rank(x) > 3 {
      forall i | 0 <= i < |s| ensures s[i] != x { }
      assert x !in s;
    }
  }

  lemma TailBelowHead<T>(rank: T -> nat, t: seq<T>, k: nat)
    requires |t| != 0 && RankDescending(rank, t) && k > rank(t[0])
    ensures WithRank(rank, k, t[1..]) == []
  {
    var u := t[1..];
    forall i | 0 <= i < |u| ensures rank(u[i]) != k {
      assert u[i] == t[i + 1];
    }
    WithRankEmpty(rank, k, u);
  }

  /** A list already in descending rank order is left as it is. */
  lemma {:induction false} SortedIsByRank<T>(rank: T -> nat, t: seq<T>)
    requires Bounded(rank, t) && RankDescending(rank, t)
    ensures ByRank(rank, t) == t
  {
    if |t| != 0 {
      var x, u := t[0], t[1..];
      assert RankDescending(rank, u) && Bounded(rank, u);
      SortedIsByRank(rank, u);
      if rank(x) < 3 { TailBelowHead(rank, t, 3); }
      if rank(x) < 2 { TailBelowHead(rank, t, 2); }
      if rank(x) < 1 { TailBelowHead(rank, t, 1); }
      ByRankCons(rank, x, u);
      assert t == [x] + u;
    }
  }

  /** Putting an element in front of a sorted list whose ranks are no higher. */
  lemma ByRankCons<T>(rank: T -> nat, x: T, u: seq<T>)
    requires rank(x) <= 3 && ByRank(rank, u) == u
    requires rank(x) < 3 ==> WithRank(rank, 3, u) == []
    requires rank(x) < 2 ==> WithRank(rank, 2, u) == []
    requires rank(x) < 1 ==> WithRank(rank, 1, u) == []
    ensures ByRank(rank, [x] + u) == [x] + u
  {
    WithRankCons(rank, 3, x, u);
    WithRankCons(rank, 2, x, u);
    WithRankCons(rank, 1, x, u);
    WithRankCons(rank, 0, x, u);
    PrependToBucket(x, rank(x),
      WithRank(rank, 3, u), WithRank(rank, 2, u), WithRank(rank, 1, u), WithRank(rank, 0, u),
      WithRank(rank, 3, [x] + u), WithRank(rank, 2, [x] + u), WithRank(rank, 1, [x] + u), WithRank(rank, 0, [x] + u));
  }

  /** The sequence fact behind `ByRankCons`: adding `x` to the front of bucket
      `r`, when every earlier bucket is empty, adds it to the front of the whole. */
  lemma PrependToBucket<T>(x: T, r: nat, w3: seq<T>, w2: seq<T>, w1: seq<T>, w0: seq<T>,
                           v3: seq<T>, v2: seq<T>, v1: seq<T>, v0: seq<T>)
    requires r <= 3
    requires v3 == (if r == 3 then [x] else []) + w3 && (r < 3 ==> w3 == [])
    requires v2 == (if r == 2 then [x] else []) + w2 && (r < 2 ==> w2 == [])
    requires v1 == (if r == 1 then [x] else []) + w1 && (r < 1 ==> w1 == [])
    requires v0 == (if r == 0 then [x] else []) + w0
    ensures v3 + v2 + v1 + v0 == [x] + (w3 + w2 + w1 + w0)
  {
    if r == 3 {
      assert v3 == [x] + w3 && v2 == w2 && v1 == w1 && v0 == w0;
      PrependToFirstOfFour([x], w3, w2, w1, w0);
    } else if r == 2 {
      assert v3 == [] && v2 == [x] + w2 && v1 == w1 && v0 == w0;
      PrependToSecondOfFour([x], v3, w3, w2, w1, w0);
    } else if r == 1 {
      assert v3 + v2 == [] && v1 == [x] + w1 && v0 == w0;
      PrependAfterEmpty([x], v3 + v2, w3 + w2, w1, w0);
    } else {
      assert v3 + v2 + v1 == [] && v0 == [x] + w0;
      PrependAfterEmpty([x], v3 + v2 + v1, w3 + w2 + w1, [], w0);
    }
  }

  /** Adding `a` to the front of the first of four parts adds it to the front of the whole. */
  lemma PrependToFirstOfFour<T>(a: seq<T>, b: seq<T>, c: seq<T>, d: seq<T>, e: seq<T>)
    ensures (a + b) + c + d + e == a + (b + c + d + e)
  {
  }

  /** The same for the second of four parts, when the first is empty. */
  lemma PrependToSecondOfFour<T>(a: seq<T>, e1: seq<T>, e2: seq<T>, b: seq<T>, c: seq<T>, d: seq<T>)
    requires e1 == [] && e2 == []
    ensures e1 + (a + b) + c + d == a + (e2 + b + c + d)
  {
  }

  /** The same for the part after an empty prefix `e1` (written `e2` on the right), followed by `d`. */
  lemma PrependAfterEmpty<T>(a: seq<T>, e1: seq<T>, e2: seq<T>, c: seq<T>, d: seq<T>)
    requires e1 == [] && e2 == []
    ensures e1 + (a + c) + d == a + (e2 + c + d)
  {
  }

  /** The sort is characterised by its two promises: any list in descending rank
      order that keeps every rank's elements in their original order is it. */
  lemma ByRankUnique<T>(rank: T -> nat, s: seq<T>, t: seq<T>)
    requires Bounded(rank, s) && RankDescending(rank, t) && SameRanks(rank, t, s)
    ensures t == ByRank(rank, s)
  {
    SameRanksBounded(rank, s, t);
    SortedIsByRank(rank, t);
  }

  lemma SameRanksBounded<T>(rank: T -> nat, s: seq<T>, t: seq<T>)
    requires Bounded(rank, s) && SameRanks(rank, t, s)
    ensures Bounded(rank, t)
  {
    forall i | 0 <= i < |t| ensures rank(t[i]) <= 3 {
      var k := rank(t[i]);
      WithRankMembers(rank, k, t, t[i]);
      WithRankMembers(rank, k, s, t[i]);
    }
  }

  /** Every element of a sorted list has a rank of at most 3. */
  lemma ByRankBounded<T>(rank: T -> nat, s: seq<T>)
    ensures Bounded(rank, ByRank(rank, s))
  {
    WithRankRanks(rank, 3, s);
    WithRankRanks(rank, 2, s);
    WithRankRanks(rank, 1, s);
    WithRankRanks(rank, 0, s);
  }

  /** Sorting twice is sorting once. */
  lemma ByRankIdempotent<T>(rank: T -> nat, s: seq<T>)
    ensures ByRank(rank, ByRank(rank, s)) == ByRank(rank, s)
  {
    ByRankDescending(rank, s);
    ByRankBounded(rank, s);
    SortedIsByRank(rank, ByRank(rank, s));
  }

  // ---------------------------------------------------------------- insertion sort

  /** Exchanging two neighbours of different rank changes no rank's sublist. */
  lemma SwapKeepsRanks<T>(rank: T -> nat, p: seq<T>, x: T, y: T, q: seq<T>, k: nat)
    requires rank(x) != rank(y)
    ensures WithRank(rank, k, p + [x, y] + q) == WithRank(rank, k, p + [y, x] + q)
  {
    WithRankConcat(rank, k, p + [x, y], q);
    WithRankConcat(rank, k, p, [x, y]);
    WithRankConcat(rank, k, p + [y, x], q);
    WithRankConcat(rank, k, p, [y, x]);
    assert [x, y][1..] == [y];
    assert [y, x][1..] == [x];
  }

  /** Exchanging the neighbours at `j - 1` and `j`, of different rank. */
  lemma SwapAdjacent<T>(rank: T -> nat, t: seq<T>, j: nat)
    requires 0 < j < |t| && rank(t[j - 1]) != rank(t[j])
    ensures SameRanks(rank, t[j - 1 := t[j]][j := t[j - 1]], t)
  {
    var p, x, y, q := t[..j - 1], t[j - 1], t[j], t[j + 1..];
    assert t == p + [x, y] + q;
    assert t[j - 1 := y][j := x] == p + [y, x] + q;
    forall k: nat ensures WithRank(rank, k, p + [y, x] + q) == WithRank(rank, k, t) {
      SwapKeepsRanks(rank, p, x, y, q, k);
    }
  }

  /** The first `n` elements are in descending rank order. */
  ghost predicate SortedUpTo<T>(rank: T -> nat, s: seq<T>, n: nat)
  {
    forall a, b :: 0 <= a < b < n && b < |s| ==> rank(s[a]) >= rank(s[b])
  }

  /** One pass of insertion: the element at `i` moves left past every element
      of strictly lower rank, and stops behind the first of equal or higher rank. */
  method Insert<T>(rank: T -> nat, s: seq<T>, i: nat) returns (t: seq<T>)
    requires i < |s| && SortedUpTo(rank, s, i)
    ensures |t| == |s| && SortedUpTo(rank, t, i + 1) && SameRanks(rank, t, s)
  {
    t := s;
    var j := i;
    while j > 0 && rank(t[j - 1]) < rank(t[j])
      invariant 0 <= j <= i < |t| == |s|
      invariant forall a, b :: 0 <= a < b <= i && a != j && b != j ==> rank(t[a]) >= rank(t[b])
      invariant forall b :: j < b <= i ==> rank(t[j]) > rank(t[b])
      invariant SameRanks(rank, t, s)
    {
      SwapAdjacent(rank, t, j);
      t := t[j - 1 := t[j]][j := t[j - 1]];
      j := j - 1;
    }
  }

  /** `items.sort(key=rank, reverse=True)` as a stable insertion sort. */
  method Sort<T>(rank: T -> nat, items: seq<T>) returns (sorted: seq<T>)
    requires Bounded(rank, items)
    ensures sorted == ByRank(rank, items)
  {
    var s := items;
    var i := 0;
    while i < |s|
      invariant 0 <= i <= |s| == |items|
      invariant SortedUpTo(rank, s, i)
      invariant SameRanks(rank, s, items)
    {
      s := Insert(rank, s, i);
      i := i + 1;
    }
    ByRankUnique(rank, items, s);
    sorted := s;
  }
}
