/** Small shared vocabulary: optional values, Python's slicing, sums and counts. */
module Common {

  datatype Option<T> = None | Some(value: T)

  /** Python's `a or b` on two optional strings: an absent or empty `a` falls through to `b`. */
  function OrElse(a: Option<string>, b: Option<string>): Option<string>
  {
    if a.Some? && a.value != "" then a else b
  }

  /** `s or ""`. */
  function OrEmpty(a: Option<string>): string
  {
    if a.Some? then a.value else ""
  }

  /**
   * One entry of `meta.json` as the readers see it (`meta.get(str(id)) or {}`); a field is
   * `None` when its key is absent, and `hasCode` is the truth value of `has_code`.
   */
  datatype MetaEntry = MetaEntry(
    convId: Option<string>,
    title: Option<string>,
    role: Option<string>,
    ts: Option<string>,
    hasCode: bool,
    snippet: Option<string>,
    text: Option<string>)

  const NoMeta := MetaEntry(None, None, None, None, false, None, None)

  /** `meta.get(str(id)) or {}`. */
  function MetaOf(meta: map<int, MetaEntry>, id: int): MetaEntry
  {
    if id in meta then meta[id] else NoMeta
  }

  /**
   * A ranked result record: `bm25_search` fills the first six keys, `dense_search` also
   * `snippet` (`None` stands for an absent key or a `None` value).
   */
  datatype Hit = Hit(
    msg: int,
    score: real,
    convId: Option<string>,
    title: Option<string>,
    role: Option<string>,
    ts: Option<string>,
    snippet: Option<string>)

  function Min(a: int, b: int): int { if a <= b then a else b }
  function Max(a: int, b: int): int { if a >= b then a else b }
  function MinR(a: real, b: real): real { if a <= b then a else b }
  function MaxR(a: real, b: real): real { if a >= b then a else b }

  /** Python's normalisation of one slice bound against a sequence of length n. */
  function SliceBound(x: int, n: nat): (r: nat)
    ensures r <= n
  {
    if x < 0 then Max(0, x + n) else Min(x, n)
  }

  /** Python's `s[lo:hi]`, negative bounds counting from the end. */
  function PySlice<T>(s: seq<T>, lo: int, hi: int): (r: seq<T>)
    ensures var a, b := SliceBound(lo, |s|), SliceBound(hi, |s|);
      if a < b then r == s[a..b] else r == []
  {
    var a, b := SliceBound(lo, |s|), SliceBound(hi, |s|);
    if a < b then s[a..b] else []
  }

  /** Python's `s[:k]`. */
  function PyTake<T>(s: seq<T>, k: int): (r: seq<T>)
    ensures r == s[..SliceBound(k, |s|)]
    ensures k >= 0 ==> |r| == Min(k, |s|)
  {
    s[..SliceBound(k, |s|)]
  }

  function Sum(s: seq<real>): real
  {
    if s == [] then 0.0 else Sum(s[..|s| - 1]) + s[|s| - 1]
  }

  function Zeros(n: nat): (r: seq<real>)
    ensures |r| == n && forall i :: 0 <= i < n ==> r[i] == 0.0
  {
    seq(n, _ => 0.0)
  }

  /** `sum(r[j] * c[j])`. */
  function Dot(r: seq<real>, c: seq<real>): real
    requires |r| == |c|
  {
    if r == [] then 0.0 else Dot(r[..|r| - 1], c[..|c| - 1]) + r[|r| - 1] * c[|c| - 1]
  }

  function Count<T(==)>(s: seq<T>, x: T): nat
  {
    if s == [] then 0 else Count(s[..|s| - 1], x) + (if s[|s| - 1] == x then 1 else 0)
  }

  predicate Distinct<T(==)>(s: seq<T>)
  {
    forall i, j :: 0 <= i < j < |s| ==> s[i] != s[j]
  }

  /** A sequence of non-negative reals has a non-negative sum. */
  lemma {:induction false} SumNonNegative(s: seq<real>)
    requires forall i :: 0 <= i < |s| ==> s[i] >= 0.0
    ensures Sum(s) >= 0.0
  {
    if s != [] {
      SumNonNegative(s[..|s| - 1]);
    }
  }

  /** In a sequence of non-negative reals no element exceeds the sum. */
  lemma {:induction false} SumAtLeastElement(s: seq<real>, k: int)
    requires forall i :: 0 <= i < |s| ==> s[i] >= 0.0
    requires 0 <= k < |s|
    ensures Sum(s) >= s[k]
  {
    if k == |s| - 1 {
      SumNonNegative(s[..|s| - 1]);
    } else {
      SumAtLeastElement(s[..|s| - 1], k);
    }
  }

  lemma {:induction false} SumAppend(s: seq<real>, t: seq<real>)
    ensures Sum(s + t) == Sum(s) + Sum(t)
    decreases |t|
  {
    if t != [] {
      assert (s + t)[..|s + t| - 1] == s + t[..|t| - 1];
      SumAppend(s, t[..|t| - 1]);
    } else {
      assert s + t == s;
    }
  }

  lemma {:induction false} CountAppend<T>(s: seq<T>, t: seq<T>, x: T)
    ensures Count(s + t, x) == Count(s, x) + Count(t, x)
    decreases |t|
  {
    if t != [] {
      assert (s + t)[..|s + t| - 1] == s + t[..|t| - 1];
      CountAppend(s, t[..|t| - 1], x);
    } else {
      assert s + t == s;
    }
  }

  /** `Count` agrees with the multiset of the sequence. */
  lemma {:induction false} CountIsMultiplicity<T>(s: seq<T>, x: T)
    ensures Count(s, x) == multiset(s)[x]
  {
    if s != [] {
      CountIsMultiplicity(s[..|s| - 1], x);
      assert s == s[..|s| - 1] + [s[|s| - 1]];
    }
  }

  lemma {:induction false} DivPositive(x: real, y: real)
    requires x > 0.0 && y > 0.0
    ensures x / y > 0.0
  {
    assert (x / y) * y == x;
  }

  lemma {:induction false} DivNonNegative(x: real, y: real)
    requires x >= 0.0 && y > 0.0
    ensures x / y >= 0.0
  {
    if x > 0.0 { DivPositive(x, y); }
  }

  /** In a sequence without repeats every element occurs once. */
  lemma {:induction false} DistinctMultiplicity<T>(s: seq<T>, x: T)
    requires Distinct(s)
    ensures multiset(s)[x] <= 1
  {
    if s != [] {
      var init := s[..|s| - 1];
      assert s == init + [s[|s| - 1]];
      DistinctMultiplicity(init, x);
      if s[|s| - 1] == x {
        assert x !in init;
      }
    }
  }

  /** An element found at two positions occurs at least twice. */
  lemma {:induction false} RepeatMultiplicity<T>(s: seq<T>, i: int, j: int)
    requires 0 <= i < j < |s| && s[i] == s[j]
    ensures multiset(s)[s[i]] >= 2
  {
    assert s == s[..j] + [s[j]] + s[j + 1..];
    assert s[i] in s[..j];
  }

  /** `{x: k for k, x in enumerate(s)}`: each element's position, the last one for a repeated element. */
  function IndexMap(s: seq<int>): (r: map<int, nat>)
    ensures forall m :: m in r <==> m in s
    ensures forall m :: m in r ==> r[m] < |s| && s[r[m]] == m
  {
    if s == [] then map[]
    else
      var r := IndexMap(s[..|s| - 1]);
      assert forall m :: m in s <==> m in s[..|s| - 1] || m == s[|s| - 1];
      r[s[|s| - 1] := |s| - 1]
  }

  /** In a sequence without repeats, `IndexMap` inverts indexing. */
  lemma {:induction false} IndexMapOfDistinct(s: seq<int>)
    requires Distinct(s)
    ensures forall k :: 0 <= k < |s| ==> IndexMap(s)[s[k]] == k
  {
    if s != [] {
      IndexMapOfDistinct(s[..|s| - 1]);
    }
  }

  /** Adding `c` to one element adds `c` to the sum. */
  lemma {:induction false} SumPointAdd(a: seq<real>, k: int, c: real)
    requires 0 <= k < |a|
    ensures Sum(a[k := a[k] + c]) == Sum(a) + c
  {
    var b := a[k := a[k] + c];
    if k < |a| - 1 {
      assert b[..|b| - 1] == a[..|a| - 1][k := a[k] + c];
      SumPointAdd(a[..|a| - 1], k, c);
    } else {
      assert b[..|b| - 1] == a[..|a| - 1];
    }
  }

  /** Dividing every element by `d` divides the sum by `d`. */
  lemma {:induction false} SumScaled(a: seq<real>, b: seq<real>, d: real)
    requires d != 0.0 && |a| == |b|
    requires forall i :: 0 <= i < |a| ==> b[i] == a[i] / d
    ensures Sum(b) == Sum(a) / d
  {
    if a != [] {
      SumScaled(a[..|a| - 1], b[..|b| - 1], d);
    }
  }

  /** A constant sequence sums to its length times the constant. */
  lemma {:induction false} SumConstant(a: seq<real>, c: real)
    requires forall i :: 0 <= i < |a| ==> a[i] == c
    ensures Sum(a) == |a| as real * c
  {
    if a != [] {
      SumConstant(a[..|a| - 1], c);
    }
  }

  lemma {:induction false} DivSelf(x: real)
    requires x != 0.0
    ensures x / x == 1.0
  {
  }

  lemma {:induction false} MulDivCancel(n: real, c: real)
    requires n != 0.0
    ensures (n * c) / n == c
  {
  }
}
