/**
 * Python's `sorted`/`list.sort` are stable: elements whose keys compare equal keep their
 * input order, also under `reverse=True`. The model sorts with respect to a "may precede"
 * relation `le` (a total preorder): ascending keys use `key(a) <= key(b)`, descending
 * ones `key(a) >= key(b)`.
 */
module StableSort {
  import opened Common

  ghost predicate TotalPreorder<T(!new)>(le: (T, T) -> bool)
  {
    && (forall x, y :: le(x, y) || le(y, x))
    && (forall x, y, z :: le(x, y) && le(y, z) ==> le(x, z))
  }

  predicate Sorted<T>(s: seq<T>, le: (T, T) -> bool)
  {
    forall i, j :: 0 <= i < j < |s| ==> le(s[i], s[j])
  }

  /** Tied: neither may be placed strictly before the other. */
  predicate Tied<T>(x: T, y: T, le: (T, T) -> bool) { le(x, y) && le(y, x) }

  /** The elements of `s` tied with `x`, in their order in `s`. */
  function TiedWith<T>(s: seq<T>, x: T, le: (T, T) -> bool): seq<T>
  {
    if s == [] then []
    else TiedWith(s[..|s| - 1], x, le) + (if Tied(s[|s| - 1], x, le) then [s[|s| - 1]] else [])
  }

  /** Insert `x` after every element that may precede it. */
  function Insert<T>(x: T, s: seq<T>, le: (T, T) -> bool): (r: seq<T>)
    ensures multiset(r) == multiset(s) + multiset{x}
    ensures |r| == |s| + 1
  {
    if s == [] then [x]
    else if !le(s[0], x) then [x] + s
    else
      assert s == [s[0]] + s[1..];
      [s[0]] + Insert(x, s[1..], le)
  }

  /** Insertion sort over the input from left to right: Python's stable sort. */
  function Sort<T>(s: seq<T>, le: (T, T) -> bool): (r: seq<T>)
    ensures multiset(r) == multiset(s)
    ensures |r| == |s|
  {
    if s == [] then []
    else
      assert s == s[..|s| - 1] + [s[|s| - 1]];
      Insert(s[|s| - 1], Sort(s[..|s| - 1], le), le)
  }

  lemma {:induction false} InsertSorted<T(!new)>(x: T, s: seq<T>, le: (T, T) -> bool)
    requires TotalPreorder(le)
    requires Sorted(s, le)
    ensures Sorted(Insert(x, s, le), le)
  {
    if s != [] && le(s[0], x) {
      InsertSorted(x, s[1..], le);
      var r := Insert(x, s, le);
      var t := Insert(x, s[1..], le);
      assert r == [s[0]] + t;
      assert multiset(t) == multiset(s[1..]) + multiset{x};
      forall j | 0 < j < |r| ensures le(s[0], r[j]) {
        assert r[j] in multiset(t);
        if r[j] != x {
          assert r[j] in multiset(s[1..]);
          var k :| 0 <= k < |s[1..]| && s[1..][k] == r[j];
          assert s[k + 1] == r[j];
        }
      }
    }
  }

  /** The result of `Sort` is ordered by `le`. */
  lemma {:induction false} SortSorted<T(!new)>(s: seq<T>, le: (T, T) -> bool)
    requires TotalPreorder(le)
    ensures Sorted(Sort(s, le), le)
  {
    if s != [] {
      SortSorted(s[..|s| - 1], le);
      InsertSorted(s[|s| - 1], Sort(s[..|s| - 1], le), le);
    }
  }

  lemma {:induction false} TiedWithAppend<T>(s: seq<T>, t: seq<T>, x: T, le: (T, T) -> bool)
    ensures TiedWith(s + t, x, le) == TiedWith(s, x, le) + TiedWith(t, x, le)
    decreases |t|
  {
    if t == [] {
      assert s + t == s;
    } else {
      assert (s + t)[..|s + t| - 1] == s + t[..|t| - 1];
      TiedWithAppend(s, t[..|t| - 1], x, le);
    }
  }

  /** In a sorted sequence, once an element may not precede `x`, no later one may either. */
  lemma {:induction false} NoneTiedAfter<T(!new)>(x: T, s: seq<T>, z: T, le: (T, T) -> bool)
    requires TotalPreorder(le)
    requires Sorted(s, le)
    requires s != [] && !le(s[0], x)
    requires Tied(x, z, le)
    ensures TiedWith(s, z, le) == []
    decreases |s|
  {
    var init := s[..|s| - 1];
    if |s| > 1 {
      assert init[0] == s[0];
      NoneTiedAfter(x, init, z, le);
    }
    assert !le(s[|s| - 1], x) by {
      if |s| > 1 {
        assert le(s[0], s[|s| - 1]);
      }
    }
  }

  lemma {:induction false} TiedWithSingleton<T>(x: T, z: T, le: (T, T) -> bool)
    ensures TiedWith([x], z, le) == if Tied(x, z, le) then [x] else []
  {
    assert [x][..0] == [];
  }

  /** Placing `x` in front of a sorted sequence whose head may not precede it. */
  lemma {:induction false} InsertInFrontStable<T(!new)>(x: T, s: seq<T>, z: T, le: (T, T) -> bool)
    requires TotalPreorder(le)
    requires Sorted(s, le)
    requires s != [] && !le(s[0], x)
    ensures TiedWith([x] + s, z, le) == TiedWith(s, z, le) + (if Tied(x, z, le) then [x] else [])
  {
    TiedWithAppend([x], s, z, le);
    TiedWithSingleton(x, z, le);
    if Tied(x, z, le) {
      NoneTiedAfter(x, s, z, le);
    }
  }

  /** Inserting `x` into a sorted sequence appends it to its class of ties and leaves every other class alone. */
  lemma {:induction false} InsertStable<T(!new)>(x: T, s: seq<T>, z: T, le: (T, T) -> bool)
    requires TotalPreorder(le)
    requires Sorted(s, le)
    ensures TiedWith(Insert(x, s, le), z, le)
         == TiedWith(s, z, le) + (if Tied(x, z, le) then [x] else [])
  {
    if s == [] {
      TiedWithSingleton(x, z, le);
    } else if !le(s[0], x) {
      InsertInFrontStable(x, s, z, le);
    } else {
      var h, tl := s[0], s[1..];
      assert s == [h] + tl;
      SortedTail(s, le);
      var t := Insert(x, tl, le);
      assert Insert(x, s, le) == [h] + t;
      InsertStable(x, tl, z, le);
      TiedWithAppend([h], t, z, le);
      TiedWithAppend([h], tl, z, le);
    }
  }

  lemma {:induction false} SortedTail<T>(s: seq<T>, le: (T, T) -> bool)
    requires s != [] && Sorted(s, le)
    ensures Sorted(s[1..], le)
  {
    forall i, j | 0 <= i < j < |s| - 1 ensures le(s[1..][i], s[1..][j]) {
      assert s[1..][i] == s[i + 1] && s[1..][j] == s[j + 1];
    }
  }

  /** Stability: for every class of tied elements, the sort keeps their input order. */
  lemma {:induction false} SortStable<T(!new)>(s: seq<T>, z: T, le: (T, T) -> bool)
    requires TotalPreorder(le)
    ensures TiedWith(Sort(s, le), z, le) == TiedWith(s, z, le)
  {
    if s != [] {
      var init, last := s[..|s| - 1], s[|s| - 1];
      SortStable(init, z, le);
      SortSorted(init, le);
      InsertStable(last, Sort(init, le), z, le);
    }
  }

  /**
   * `sorted(s)[:k]`: the kept prefix is in order, kept and dropped elements together are
   * exactly `s`, and every kept element may precede every dropped one.
   */
  lemma {:induction false} TopK<T(!new)>(s: seq<T>, le: (T, T) -> bool, k: int)
    requires TotalPreorder(le)
    ensures var sorted, n := Sort(s, le), SliceBound(k, |s|);
      && Sorted(PyTake(sorted, k), le)
      && multiset(PyTake(sorted, k)) + multiset(sorted[n..]) == multiset(s)
      && forall i, j :: 0 <= i < n <= j < |s| ==> le(sorted[i], sorted[j])
  {
    SortSorted(s, le);
    SortedSplit(Sort(s, le), le, SliceBound(k, |s|));
  }

  lemma {:induction false} SortedSplit<T>(s: seq<T>, le: (T, T) -> bool, n: int)
    requires Sorted(s, le) && 0 <= n <= |s|
    ensures Sorted(s[..n], le)
    ensures multiset(s[..n]) + multiset(s[n..]) == multiset(s)
    ensures forall i, j :: 0 <= i < n <= j < |s| ==> le(s[i], s[j])
  {
    assert s == s[..n] + s[n..];
  }

  /** Sorting introduces no repeats. */
  lemma {:induction false} SortDistinct<T>(s: seq<T>, le: (T, T) -> bool)
    requires Distinct(s)
    ensures Distinct(Sort(s, le))
  {
    var r := Sort(s, le);
    forall i, j | 0 <= i < j < |r| ensures r[i] != r[j] {
      if r[i] == r[j] {
        RepeatMultiplicity(r, i, j);
        DistinctMultiplicity(s, r[i]);
      }
    }
  }

  /** When `sorted(s)[:k]` is shorter than `k`, it keeps every element. */
  lemma {:induction false} TopKShortKeepsAll<T>(s: seq<T>, le: (T, T) -> bool, k: int, x: T)
    requires x in s && |PyTake(Sort(s, le), k)| < k
    ensures x in PyTake(Sort(s, le), k)
  {
    var sorted := Sort(s, le);
    assert PyTake(sorted, k) == sorted;
    assert x in multiset(sorted);
  }

  /** An element dropped by `sorted(s)[:k]` may be preceded by every kept one. */
  lemma {:induction false} TopKLeftOut<T(!new)>(s: seq<T>, le: (T, T) -> bool, k: int, x: T)
    requires TotalPreorder(le)
    requires x in s && x !in PyTake(Sort(s, le), k)
    ensures forall i :: 0 <= i < |PyTake(Sort(s, le), k)| ==> le(Sort(s, le)[i], x)
  {
    var sorted := Sort(s, le);
    assert x in multiset(sorted);
    SortSorted(s, le);
    PrefixBeforeRest(sorted, le, SliceBound(k, |s|), x);
  }

  lemma {:induction false} PrefixBeforeRest<T>(sorted: seq<T>, le: (T, T) -> bool, n: int, x: T)
    requires Sorted(sorted, le) && 0 <= n <= |sorted|
    requires x in sorted && x !in sorted[..n]
    ensures forall i :: 0 <= i < n ==> le(sorted[i], x)
  {
    forall i | 0 <= i < n ensures le(sorted[i], x) {
      var q :| 0 <= q < |sorted| && sorted[q] == x;
    }
  }

  /** When `sorted(s)[:k]` keeps fewer than k elements it keeps them all. */
  lemma {:induction false} TopKShort<T>(s: seq<T>, le: (T, T) -> bool, k: int)
    requires 0 <= |PyTake(Sort(s, le), k)| < k
    ensures forall x :: x in s ==> x in PyTake(Sort(s, le), k)
  {
    assert PyTake(Sort(s, le), k) == Sort(s, le);
    forall x | x in s ensures x in Sort(s, le) {
      assert x in multiset(s);
    }
  }

  /**
   * `sorted(s)[:k]` of distinct elements: `min(k, |s|)` distinct elements of `s`, in order,
   * each of which may precede every element left out.
   */
  lemma {:induction false} TopKFacts<T(!new)>(s: seq<T>, le: (T, T) -> bool, k: int)
    requires TotalPreorder(le) && Distinct(s)
    ensures var r := PyTake(Sort(s, le), k);
      && (k >= 0 ==> |r| == Min(k, |s|))
      && Distinct(r)
      && (forall i :: 0 <= i < |r| ==> r[i] in s)
      && Sorted(r, le)
      && (forall x :: x in s && x !in r ==> forall i :: 0 <= i < |r| ==> le(r[i], x))
  {
    var sorted := Sort(s, le);
    var r := PyTake(sorted, k);
    TopK(s, le, k);
    SortDistinct(s, le);
    forall i | 0 <= i < |r| ensures r[i] in s {
      assert r[i] == sorted[i];
      assert sorted[i] in multiset(s);
    }
    forall x | x in s && x !in r ensures forall i :: 0 <= i < |r| ==> le(r[i], x) {
      TopKLeftOut(s, le, k, x);
    }
  }
}
