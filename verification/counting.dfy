/**
 * Python's `collections.Counter` as used by the analytics handlers: a
 * tally of distinct keys with their counts in order of first occurrence,
 * and `most_common()`, the tally ordered by count with ties kept in that
 * order.
 */
module Counting {
  import opened Sorting

  /** The keys of a tally, in order. */
  function Keys<K(==)>(t: seq<(K, nat)>): seq<K> {
    MapSeq(t, (p: (K, nat)) => p.0)
  }

  /** The sum of the counts of a tally. */
  function Total<K(==)>(t: seq<(K, nat)>): nat {
    if t == [] then 0 else Total(t[..|t| - 1]) + t[|t| - 1].1
  }

  /** Adds one occurrence of `x` to a tally, appending a new key at the end. */
  function Bump<K(==)>(t: seq<(K, nat)>, x: K): (r: seq<(K, nat)>)
    ensures |r| == |t| || |r| == |t| + 1
    ensures (forall k :: 0 <= k < |t| ==> t[k].1 > 0) ==> forall k :: 0 <= k < |r| ==> r[k].1 > 0
  {
    if t == [] then [(x, 1)]
    else if t[0].0 == x then [(x, t[0].1 + 1)] + t[1..]
    else [t[0]] + Bump(t[1..], x)
  }

  /** `Counter(xs)`: each distinct item with its count, in order of first occurrence. */
  function Tally<K(==)>(xs: seq<K>): (r: seq<(K, nat)>)
    ensures forall k :: 0 <= k < |r| ==> r[k].1 > 0
  {
    if xs == [] then [] else Bump(Tally(xs[..|xs| - 1]), xs[|xs| - 1])
  }

  predicate DistinctKeys<K(==)>(t: seq<(K, nat)>) {
    forall i, j :: 0 <= i < j < |t| ==> t[i].0 != t[j].0
  }

  /** The count a tally holds for `x`, 0 when `x` is not a key. */
  function CountOf<K(==)>(t: seq<(K, nat)>, x: K): nat {
    if t == [] then 0 else (if t[0].0 == x then t[0].1 else 0) + CountOf(t[1..], x)
  }

  lemma {:induction false} BumpCounts<K>(t: seq<(K, nat)>, x: K, y: K)
    requires DistinctKeys(t)
    ensures DistinctKeys(Bump(t, x))
    ensures CountOf(Bump(t, x), y) == CountOf(t, y) + (if x == y then 1 else 0)
    ensures (exists i :: 0 <= i < |Bump(t, x)| && Bump(t, x)[i].0 == x)
  {
    if t == [] {
      assert Bump(t, x)[0].0 == x;
    } else if t[0].0 == x {
      var r := Bump(t, x);
      assert r[1..] == t[1..];
      assert forall k :: 1 <= k < |t| ==> t[k].0 != x;
      assert r[0].0 == x;
      CountOfNoKey(t[1..], x);
    } else {
      BumpCounts(t[1..], x, y);
      var r := Bump(t, x);
      var rest := Bump(t[1..], x);
      assert r == [t[0]] + rest;
      assert r[1..] == rest;
      BumpKeys(t[1..], x);
      assert forall k :: 0 <= k < |rest| ==> rest[k].0 != t[0].0 by {
        forall k | 0 <= k < |rest| ensures rest[k].0 != t[0].0 {
          assert rest[k].0 in Keys(t[1..]) + [x] by { BumpKeys(t[1..], x); }
          if rest[k].0 in Keys(t[1..]) {
            MapSeqMembers(t[1..], (p: (K, nat)) => p.0, rest[k].0);
          }
        }
      }
      var i :| 0 <= i < |rest| && rest[i].0 == x;
      assert r[i + 1].0 == x;
    }
  }

  lemma {:induction false} BumpKeys<K>(t: seq<(K, nat)>, x: K)
    ensures forall k :: 0 <= k < |Bump(t, x)| ==> Bump(t, x)[k].0 in Keys(t) + [x]
  {
    if t != [] && t[0].0 != x {
      BumpKeys(t[1..], x);
      var r := Bump(t, x);
      forall k | 0 <= k < |r| ensures r[k].0 in Keys(t) + [x] {
        if k == 0 {
          assert Keys(t)[0] == t[0].0;
        } else {
          var y := r[k].0;
          assert y == Bump(t[1..], x)[k - 1].0;
          if y != x {
            assert y in Keys(t[1..]);
            MapSeqMembers(t[1..], (p: (K, nat)) => p.0, y);
            var j :| 0 <= j < |t[1..]| && y == t[1..][j].0;
            assert Keys(t)[j + 1] == y;
          }
        }
      }
    } else if t != [] {
      var r := Bump(t, x);
      forall k | 0 <= k < |r| ensures r[k].0 in Keys(t) + [x] {
        if k > 0 { assert Keys(t)[k] == t[k].0; }
      }
    }
  }

  lemma {:induction false} CountOfNoKey<K>(t: seq<(K, nat)>, x: K)
    requires forall k :: 0 <= k < |t| ==> t[k].0 != x
    ensures CountOf(t, x) == 0
  {
    if t != [] {
      CountOfNoKey(t[1..], x);
    }
  }

  /**
   * `Counter` semantics: the keys are distinct, each count is the number
   * of occurrences, and every choice made is a key.
   */
  lemma {:induction false} TallyCounts<K>(xs: seq<K>, y: K)
    ensures DistinctKeys(Tally(xs))
    ensures CountOf(Tally(xs), y) == multiset(xs)[y]
    ensures y in xs ==> exists i :: 0 <= i < |Tally(xs)| && Tally(xs)[i].0 == y
  {
    if xs != [] {
      var init := xs[..|xs| - 1];
      var x := xs[|xs| - 1];
      TallyCounts(init, y);
      BumpCounts(Tally(init), x, y);
      assert xs == init + [x];
      if y in xs && y != x {
        assert y in init;
        var i :| 0 <= i < |Tally(init)| && Tally(init)[i].0 == y;
        BumpKeeps(Tally(init), x, i);
      }
    }
  }

  lemma {:induction false} BumpKeeps<K>(t: seq<(K, nat)>, x: K, i: nat)
    requires i < |t| && t[i].0 != x
    ensures exists j :: 0 <= j < |Bump(t, x)| && Bump(t, x)[j].0 == t[i].0
  {
    if t[0].0 == x {
      assert Bump(t, x)[i].0 == t[i].0;
    } else if i == 0 {
      assert Bump(t, x)[0] == t[0];
    } else {
      BumpKeeps(t[1..], x, i - 1);
      var j :| 0 <= j < |Bump(t[1..], x)| && Bump(t[1..], x)[j].0 == t[1..][i - 1].0;
      assert Bump(t, x)[j + 1].0 == t[i].0;
    }
  }

  /** The counts of a tally add up to the number of choices. */
  lemma {:induction false} TallyTotal<K>(xs: seq<K>)
    ensures Total(Tally(xs)) == |xs|
  {
    if xs != [] {
      TallyTotal(xs[..|xs| - 1]);
      BumpTotal(Tally(xs[..|xs| - 1]), xs[|xs| - 1]);
    }
  }

  lemma {:induction false} TotalCons<K>(p: (K, nat), t: seq<(K, nat)>)
    ensures Total([p] + t) == p.1 + Total(t)
    decreases |t|
  {
    if t != [] {
      var s := [p] + t;
      assert s[..|s| - 1] == [p] + t[..|t| - 1];
      TotalCons(p, t[..|t| - 1]);
    } else {
      assert ([p] + t)[..0] == [];
    }
  }

  lemma {:induction false} BumpTotal<K>(t: seq<(K, nat)>, x: K)
    ensures Total(Bump(t, x)) == Total(t) + 1
  {
    if t == [] {
      assert [(x, 1)][..0] == [];
    } else {
      assert t == [t[0]] + t[1..];
      TotalCons(t[0], t[1..]);
      if t[0].0 == x {
        TotalCons((x, t[0].1 + 1), t[1..]);
      } else {
        BumpTotal(t[1..], x);
        TotalCons(t[0], Bump(t[1..], x));
      }
    }
  }

  /** Order of `most_common`: a larger count first. */
  predicate ByCountDescending<K(==,!new)>(a: (K, nat), b: (K, nat)) {
    a.1 >= b.1
  }

  lemma ByCountIsPreorder<K(!new)>()
    ensures IsTotalPreorder(ByCountDescending<K>)
  {
  }

  /** `Counter(xs).most_common()`: the tally ordered by count, ties in first-occurrence order. */
  function MostCommon<K(==,!new)>(xs: seq<K>): (r: seq<(K, nat)>)
    ensures multiset(r) == multiset(Tally(xs))
    ensures forall i, j :: 0 <= i < j < |r| ==> r[i].1 >= r[j].1
  {
    ByCountIsPreorder<K>();
    SortBy(Tally(xs), ByCountDescending<K>)
  }

  /**
   * The listed counts sum to the number of items, each is the key's number
   * of occurrences, and the list runs from the most common down.
   */
  lemma MostCommonCounts<K(!new)>(xs: seq<K>, y: K)
    ensures Total(MostCommon(xs)) == |xs|
    ensures CountOf(MostCommon(xs), y) == multiset(xs)[y]
    ensures forall i, j :: 0 <= i < j < |MostCommon(xs)| ==> MostCommon(xs)[i].1 >= MostCommon(xs)[j].1
  {
    TallyTotal(xs);
    TotalPermutation(MostCommon(xs), Tally(xs));
    TallyCounts(xs, y);
    CountOfPermutation(MostCommon(xs), Tally(xs), y);
  }

  lemma {:induction false} TotalConcat<K>(a: seq<(K, nat)>, b: seq<(K, nat)>)
    ensures Total(a + b) == Total(a) + Total(b)
    decreases |b|
  {
    if b == [] {
      assert a + b == a;
    } else {
      assert (a + b)[..|a + b| - 1] == a + b[..|b| - 1];
      TotalConcat(a, b[..|b| - 1]);
    }
  }

  /**
   * The first element of a sequence occurs in any permutation of it, and
   * removing it from both sides leaves a permutation again.
   */
  lemma PickMatch<T>(a: seq<T>, b: seq<T>) returns (j: nat)
    requires a != [] && multiset(a) == multiset(b)
    ensures j < |b| && b[j] == a[0]
    ensures multiset(a[1..]) == multiset(b[..j] + b[j + 1..])
  {
    var x := a[0];
    assert x in multiset(b);
    j :| 0 <= j < |b| && b[j] == x;
    assert b == b[..j] + [x] + b[j + 1..];
    assert a == [x] + a[1..];
    assert multiset(b) == multiset(b[..j]) + multiset{x} + multiset(b[j + 1..]);
    assert multiset(a) == multiset{x} + multiset(a[1..]);
    assert multiset(b[..j] + b[j + 1..]) == multiset(b[..j]) + multiset(b[j + 1..]);
    assert multiset(a[1..]) == multiset(a) - multiset{x};
    assert multiset(b[..j] + b[j + 1..]) == multiset(b) - multiset{x};
  }

  /** Reordering a tally keeps its total. */
  lemma {:induction false} TotalPermutation<K>(a: seq<(K, nat)>, b: seq<(K, nat)>)
    requires multiset(a) == multiset(b)
    ensures Total(a) == Total(b)
    decreases |a|
  {
    if a != [] {
      var x := a[0];
      var j := PickMatch(a, b);
      TotalPermutation(a[1..], b[..j] + b[j + 1..]);
      assert a == [x] + a[1..];
      TotalCons(x, a[1..]);
      assert b == (b[..j] + [x]) + b[j + 1..];
      TotalConcat(b[..j] + [x], b[j + 1..]);
      TotalConcat(b[..j], [x]);
      TotalConcat(b[..j], b[j + 1..]);
      assert Total([x]) == x.1 by { TotalCons(x, []); assert [x] + [] == [x]; }
    }
  }

  lemma {:induction false} CountOfConcat<K>(a: seq<(K, nat)>, b: seq<(K, nat)>, y: K)
    ensures CountOf(a + b, y) == CountOf(a, y) + CountOf(b, y)
  {
    if a == [] {
      assert a + b == b;
    } else {
      assert (a + b)[1..] == a[1..] + b;
      CountOfConcat(a[1..], b, y);
    }
  }

  lemma {:induction false} CountOfPermutation<K>(a: seq<(K, nat)>, b: seq<(K, nat)>, y: K)
    requires multiset(a) == multiset(b)
    ensures CountOf(a, y) == CountOf(b, y)
    decreases |a|
  {
    if a != [] {
      var x := a[0];
      var j := PickMatch(a, b);
      CountOfPermutation(a[1..], b[..j] + b[j + 1..], y);
      assert b == (b[..j] + [x]) + b[j + 1..];
      CountOfConcat(b[..j] + [x], b[j + 1..], y);
      CountOfConcat(b[..j], [x], y);
      CountOfConcat(b[..j], b[j + 1..], y);
    }
  }

  /** In a tally with distinct keys, the count held for an entry's key is that entry's count. */
  lemma {:induction false} CountOfEntry<K>(t: seq<(K, nat)>, i: nat)
    requires DistinctKeys(t) && i < |t|
    ensures CountOf(t, t[i].0) == t[i].1
  {
    if i == 0 {
      CountOfNoKey(t[1..], t[0].0);
    } else {
      assert t[0].0 != t[i].0;
      CountOfEntry(t[1..], i - 1);
    }
  }

  /** Every entry of `most_common()` is an item that occurs, with its number of occurrences. */
  lemma MostCommonEntries<K(!new)>(xs: seq<K>, i: nat)
    requires i < |MostCommon(xs)|
    ensures MostCommon(xs)[i].1 == multiset(xs)[MostCommon(xs)[i].0]
    ensures MostCommon(xs)[i].0 in xs
  {
    var e := MostCommon(xs)[i];
    assert e in multiset(Tally(xs));
    var j :| 0 <= j < |Tally(xs)| && Tally(xs)[j] == e;
    TallyCounts(xs, e.0);
    CountOfEntry(Tally(xs), j);
  }
}
