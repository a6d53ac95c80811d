/**
 * Sequence filtering and ordering shared by the storage readers (SQL
 * `WHERE` / `ORDER BY` / `LIMIT`) and by the analytics helpers (Python's
 * stable `sorted` and `Counter.most_common`).
 */
module Sorting {

  /** The rows of `s` that satisfy `p`, in their original order. */
  function Filter<T(!new)>(s: seq<T>, p: T -> bool): (r: seq<T>)
    ensures |r| <= |s|
    ensures forall x :: x in r <==> x in s && p(x)
    ensures multiset(r) <= multiset(s)
  {
    if s == [] then []
    else
      assert s == [s[0]] + s[1..];
      if p(s[0]) then [s[0]] + Filter(s[1..], p)
      else Filter(s[1..], p)
  }

  lemma FilterCons<T(!new)>(x: T, t: seq<T>, p: T -> bool)
    ensures Filter([x] + t, p) == (if p(x) then [x] else []) + Filter(t, p)
  {
    assert ([x] + t)[1..] == t;
  }

  lemma {:induction false} FilterConcat<T(!new)>(a: seq<T>, b: seq<T>, p: T -> bool)
    ensures Filter(a + b, p) == Filter(a, p) + Filter(b, p)
  {
    if a == [] {
      assert a + b == b;
    } else {
      var h: seq<T> := if p(a[0]) then [a[0]] else [];
      FilterConcat(a[1..], b, p);
      FilterHead(a, b, p);
      ConcatAssoc(h, Filter(a[1..], p), Filter(b, p));
    }
  }

  /** The first row of a non-empty `a` is kept or dropped before the rest of `a + b`. */
  lemma FilterHead<T(!new)>(a: seq<T>, b: seq<T>, p: T -> bool)
    requires a != []
    ensures Filter(a + b, p) == (if p(a[0]) then [a[0]] else []) + Filter(a[1..] + b, p)
    ensures Filter(a, p) == (if p(a[0]) then [a[0]] else []) + Filter(a[1..], p)
  {
    assert a + b == [a[0]] + (a[1..] + b);
    FilterCons(a[0], a[1..] + b, p);
    assert a == [a[0]] + a[1..];
    FilterCons(a[0], a[1..], p);
  }

  lemma ConcatAssoc<T>(h: seq<T>, x: seq<T>, y: seq<T>)
    ensures h + (x + y) == (h + x) + y
  {
  }

  /** Python's `s[:n]` / SQL `LIMIT n`. */
  function Take<T(!new)>(s: seq<T>, n: nat): (r: seq<T>)
    ensures |r| <= n && |r| <= |s|
    ensures r == s[..|r|]
    ensures |r| == if n < |s| then n else |s|
  {
    if n < |s| then s[..n] else s
  }

  /** `le` is total and transitive: a sort key order that may have ties. */
  ghost predicate IsTotalPreorder<T(!new)>(le: (T, T) -> bool) {
    (forall a, b :: le(a, b) || le(b, a))
    && (forall a, b, c :: le(a, b) && le(b, c) ==> le(a, c))
  }

  predicate SortedBy<T(!new)>(s: seq<T>, le: (T, T) -> bool) {
    forall i, j :: 0 <= i < j < |s| ==> le(s[i], s[j])
  }

  /** Inserts `x` before the first element it does not sort after. */
  function Insert<T(!new)>(x: T, s: seq<T>, le: (T, T) -> bool): (r: seq<T>)
    requires IsTotalPreorder(le) && SortedBy(s, le)
    ensures SortedBy(r, le)
    ensures multiset(r) == multiset(s) + multiset{x}
    ensures |r| == |s| + 1
  {
    if s == [] then [x]
    else if le(x, s[0]) then [x] + s
    else
      var t := Insert(x, s[1..], le);
      assert multiset(s) == multiset{s[0]} + multiset(s[1..]) by {
        assert s == [s[0]] + s[1..];
      }
      assert forall y :: y in t ==> le(s[0], y) by {
        forall y | y in t ensures le(s[0], y) {
          assert y in multiset(t);
          if y == x {
          } else {
            assert y in multiset(s[1..]);
          }
        }
      }
      [s[0]] + t
  }

  /**
   * An ordering by `le` that keeps rows which compare equal in their
   * original order (insertion sort).
   */
  function SortBy<T(!new)>(s: seq<T>, le: (T, T) -> bool): (r: seq<T>)
    requires IsTotalPreorder(le)
    ensures SortedBy(r, le)
    ensures multiset(r) == multiset(s)
    ensures |r| == |s|
  {
    if s == [] then []
    else
      assert s == [s[0]] + s[1..];
      Insert(s[0], SortBy(s[1..], le), le)
  }

  /** The elements of `s` that `le` ranks level with `e`, in order. */
  function Level<T(!new)>(s: seq<T>, e: T, le: (T, T) -> bool): seq<T> {
    if s == [] then []
    else (if le(s[0], e) && le(e, s[0]) then [s[0]] else []) + Level(s[1..], e, le)
  }

  lemma LevelCons<T(!new)>(x: T, t: seq<T>, e: T, le: (T, T) -> bool)
    ensures Level([x] + t, e, le) == (if le(x, e) && le(e, x) then [x] else []) + Level(t, e, le)
  {
    assert ([x] + t)[1..] == t;
  }

  lemma {:induction false} LevelInsert<T(!new)>(x: T, s: seq<T>, e: T, le: (T, T) -> bool)
    requires IsTotalPreorder(le) && SortedBy(s, le)
    ensures Level(Insert(x, s, le), e, le)
         == (if le(x, e) && le(e, x) then [x] else []) + Level(s, e, le)
  {
    if s == [] {
    } else if le(x, s[0]) {
      assert Insert(x, s, le) == [x] + s;
    } else {
      var t := Insert(x, s[1..], le);
      assert Insert(x, s, le) == [s[0]] + t;
      LevelInsert(x, s[1..], e, le);
      LevelCons(s[0], t, e, le);
      assert s == [s[0]] + s[1..];
      LevelCons(s[0], s[1..], e, le);
      // x sorts strictly after s[0], so the two cannot both be level with e
      var y := s[0];
      assert le(x, e) && le(e, y) ==> le(x, y);
      LevelSwap(x, y, Level(s[1..], e, le), e, le);
    }
  }

  /** Two rows of which at most one is level with `e` contribute to the level in either order. */
  lemma LevelSwap<T(!new)>(x: T, y: T, rest: seq<T>, e: T, le: (T, T) -> bool)
    requires !(le(x, e) && le(e, x) && le(y, e) && le(e, y))
    ensures (if le(y, e) && le(e, y) then [y] else []) + ((if le(x, e) && le(e, x) then [x] else []) + rest)
         == (if le(x, e) && le(e, x) then [x] else []) + ((if le(y, e) && le(e, y) then [y] else []) + rest)
  {
  }

  /**
   * Stability: among rows that compare level, the order after SortBy is
   * their order in the input (Python's `sorted` is stable).
   */
  lemma {:induction false} SortByStable<T(!new)>(s: seq<T>, e: T, le: (T, T) -> bool)
    requires IsTotalPreorder(le)
    ensures Level(SortBy(s, le), e, le) == Level(s, e, le)
  {
    if s != [] {
      SortByStable(s[1..], e, le);
      LevelInsert(s[0], SortBy(s[1..], le), e, le);
      assert s == [s[0]] + s[1..];
      LevelCons(s[0], s[1..], e, le);
    }
  }

  /**
   * Two sortings of the same rows by the same order agree on the sort key
   * at every position: ties are the only freedom `ORDER BY` leaves.
   */
  lemma {:induction false} SortedPermutationsAgree<T(!new)>(a: seq<T>, b: seq<T>, le: (T, T) -> bool, i: nat)
    requires IsTotalPreorder(le)
    requires SortedBy(a, le) && SortedBy(b, le) && multiset(a) == multiset(b)
    requires i < |a|
    ensures |a| == |b|
    ensures le(a[i], b[i]) && le(b[i], a[i])
  {
    assert |a| == |multiset(a)| == |multiset(b)| == |b|;
    NotStrictlyBelow(a, b, le, i);
    NotStrictlyBelow(b, a, le, i);
  }

  /** At a position of two sorted permutations, the second is not strictly below the first. */
  lemma {:induction false} NotStrictlyBelow<T(!new)>(a: seq<T>, b: seq<T>, le: (T, T) -> bool, i: nat)
    requires IsTotalPreorder(le)
    requires SortedBy(a, le) && SortedBy(b, le) && multiset(a) == multiset(b)
    requires i < |a| == |b|
    ensures le(a[i], b[i])
  {
    if !le(a[i], b[i]) {
      // Everything up to b[i] is at most b[i]; from a[i] on, nothing in a is.
      var below := x => le(x, b[i]);
      FilterLength(a, b, below);
      forall j | 0 <= j <= i ensures below(b[j]) {
        assert le(b[j], b[i]);
      }
      PrefixInFilter(b, below, i + 1);
      forall j | i <= j < |a| ensures !below(a[j]) {
        assert le(a[i], a[j]);
      }
      SuffixOutOfFilter(a, below, i);
      assert false;
    }
  }

  lemma FilterLength<T(!new)>(a: seq<T>, b: seq<T>, p: T -> bool)
    requires multiset(a) == multiset(b)
    ensures |Filter(a, p)| == |Filter(b, p)|
  {
    FilterMultiset(a, b, p);
    assert |Filter(a, p)| == |multiset(Filter(a, p))|;
    assert |Filter(b, p)| == |multiset(Filter(b, p))|;
  }

  lemma {:induction false} FilterMultiset<T(!new)>(a: seq<T>, b: seq<T>, p: T -> bool)
    requires multiset(a) == multiset(b)
    ensures multiset(Filter(a, p)) == multiset(Filter(b, p))
  {
    forall x ensures multiset(Filter(a, p))[x] == multiset(Filter(b, p))[x] {
      FilterCount(a, p, x);
      FilterCount(b, p, x);
    }
  }

  lemma {:induction false} FilterCount<T(!new)>(s: seq<T>, p: T -> bool, x: T)
    ensures multiset(Filter(s, p))[x] == if p(x) then multiset(s)[x] else 0
  {
    if s != [] {
      FilterCount(s[1..], p, x);
      assert s == [s[0]] + s[1..];
      FilterCons(s[0], s[1..], p);
    }
  }

  /** The index of the first element satisfying `p`, or `|s|` (a `fetchone()`). */
  function FindIndex<T>(s: seq<T>, p: T -> bool): (i: nat)
    ensures i <= |s|
    ensures i < |s| ==> p(s[i])
    ensures forall j :: 0 <= j < i ==> !p(s[j])
  {
    if s == [] then 0
    else if p(s[0]) then 0
    else
      var k := FindIndex(s[1..], p);
      assert forall j :: 1 <= j < k + 1 ==> s[j] == s[1..][j - 1];
      k + 1
  }

  /** Two permutations of each other hold the same elements. */
  lemma SameElements<T>(a: seq<T>, b: seq<T>)
    requires multiset(a) == multiset(b)
    ensures forall x :: x in a <==> x in b
  {
    forall x ensures x in a <==> x in b {
      assert x in a <==> x in multiset(a);
      assert x in b <==> x in multiset(b);
    }
  }

  /** A filter drops nothing exactly when every element passes. */
  lemma {:induction false} FilterKeepsAll<T(!new)>(s: seq<T>, p: T -> bool)
    ensures |Filter(s, p)| == |s| <==> forall i :: 0 <= i < |s| ==> p(s[i])
  {
    if s != [] {
      FilterKeepsAll(s[1..], p);
      if !p(s[0]) {
        assert |Filter(s[1..], p)| <= |s[1..]|;
      } else {
        assert forall i :: 1 <= i < |s| ==> s[i] == s[1..][i - 1];
      }
    }
  }

  lemma {:induction false} PrefixInFilter<T(!new)>(s: seq<T>, p: T -> bool, k: nat)
    requires k <= |s|
    requires forall j :: 0 <= j < k ==> p(s[j])
    ensures |Filter(s, p)| >= k
  {
    if k > 0 {
      PrefixInFilter(s[1..], p, k - 1);
    }
  }

  lemma {:induction false} SuffixOutOfFilter<T(!new)>(s: seq<T>, p: T -> bool, k: nat)
    requires k <= |s|
    requires forall j :: k <= j < |s| ==> !p(s[j])
    ensures |Filter(s, p)| <= k
  {
    if s != [] && k > 0 {
      SuffixOutOfFilter(s[1..], p, k - 1);
    } else if s != [] {
      SuffixOutOfFilter(s[1..], p, 0);
    }
  }
  // ---------------------------------------------------------------------
  // SELECT lists and JOIN

  /** The result rows of a projection: `f` applied to each row, in order. */
  function MapSeq<A, B>(s: seq<A>, f: A -> B): (r: seq<B>)
    ensures |r| == |s|
    ensures forall i :: 0 <= i < |s| ==> r[i] == f(s[i])
  {
    if s == [] then [] else [f(s[0])] + MapSeq(s[1..], f)
  }

  /** Projecting a concatenation projects each part. */
  lemma {:induction false} MapSeqConcat<A, B>(a: seq<A>, b: seq<A>, f: A -> B)
    ensures MapSeq(a + b, f) == MapSeq(a, f) + MapSeq(b, f)
  {
    if a == [] {
      assert a + b == b;
    } else {
      assert (a + b)[0] == a[0] && (a + b)[1..] == a[1..] + b;
      MapSeqConcat(a[1..], b, f);
      assert MapSeq(a + b, f) == [f(a[0])] + (MapSeq(a[1..], f) + MapSeq(b, f));
    }
  }

  /** The last row adds its projection to the multiset of projected values. */
  lemma MapSeqSnocMultiset<A, B>(s: seq<A>, f: A -> B)
    requires s != []
    ensures multiset(MapSeq(s, f)) == multiset(MapSeq(s[..|s| - 1], f)) + multiset{f(s[|s| - 1])}
  {
    var init, x := s[..|s| - 1], s[|s| - 1];
    assert init + [x] == s;
    MapSeqConcat(init, [x], f);
    assert MapSeq([x], f) == [f(x)];
  }

  /** Every row of a projection comes from some input row, and conversely. */
  lemma MapSeqMembers<A, B>(s: seq<A>, f: A -> B, y: B)
    ensures y in MapSeq(s, f) <==> exists i :: 0 <= i < |s| && y == f(s[i])
  {
    var r := MapSeq(s, f);
    if y in r {
      var i :| 0 <= i < |r| && r[i] == y;
      assert y == f(s[i]);
    }
  }

  /** The rows of `ys` matching `x`, paired with it, in the order of `ys`. */
  function Pairs<A, B>(x: A, ys: seq<B>, on: (A, B) -> bool): (r: seq<(A, B)>)
    ensures |r| <= |ys|
    ensures forall k :: 0 <= k < |r| ==> r[k].0 == x && r[k].1 in ys && on(x, r[k].1)
  {
    if ys == [] then []
    else (if on(x, ys[0]) then [(x, ys[0])] else []) + Pairs(x, ys[1..], on)
  }

  lemma {:induction false} PairsComplete<A, B>(x: A, ys: seq<B>, on: (A, B) -> bool, y: B)
    requires y in ys && on(x, y)
    ensures (x, y) in Pairs(x, ys, on)
  {
    if ys[0] != y {
      PairsComplete(x, ys[1..], on, y);
    }
  }

  /**
   * `xs JOIN ys ON on`, run as a nested loop with `xs` outside: every
   * matching pair, grouped by the row of `xs`.
   */
  function InnerJoin<A, B>(xs: seq<A>, ys: seq<B>, on: (A, B) -> bool): (r: seq<(A, B)>)
    ensures forall k :: 0 <= k < |r| ==> r[k].0 in xs && r[k].1 in ys && on(r[k].0, r[k].1)
  {
    if xs == [] then [] else Pairs(xs[0], ys, on) + InnerJoin(xs[1..], ys, on)
  }

  /** Every matching pair is in the join. */
  lemma {:induction false} InnerJoinComplete<A, B>(xs: seq<A>, ys: seq<B>, on: (A, B) -> bool, x: A, y: B)
    requires x in xs && y in ys && on(x, y)
    ensures (x, y) in InnerJoin(xs, ys, on)
  {
    if xs[0] == x {
      PairsComplete(x, ys, on, y);
    } else {
      InnerJoinComplete(xs[1..], ys, on, x, y);
    }
  }

  /** A pair is in the join exactly when both rows are present and match. */
  lemma InnerJoinMembers<A, B>(xs: seq<A>, ys: seq<B>, on: (A, B) -> bool, x: A, y: B)
    ensures (x, y) in InnerJoin(xs, ys, on) <==> x in xs && y in ys && on(x, y)
  {
    if x in xs && y in ys && on(x, y) {
      InnerJoinComplete(xs, ys, on, x, y);
    }
  }
}
