/**
 * `_mini_ppr` (`rerank.py`): a personalized PageRank over the candidate messages only.
 * Edges with both ends among the candidates become entries of a column-normalised matrix
 * (column = source, row = destination); the seed vector is clamped and normalised; then
 * `r <- alpha * v + (1 - alpha) * A r` runs a fixed number of times.
 */
module Ppr {
  import opened Common

  /** One `(src, dst, w)` triple of `edges.jsonl`. */
  datatype Link = Link(src: int, dst: int, w: real)

  /** One matrix entry: `rows[k]`, `cols[k]`, `vals[k]`. */
  datatype Entry = Entry(row: nat, col: nat, w: real)

  predicate InRange(es: seq<Entry>, n: nat)
  {
    forall k :: 0 <= k < |es| ==> es[k].row < n && es[k].col < n
  }

  /** `{i: 0.0 for i in candidate_ids}`. */
  function ZeroScores(cands: seq<int>): map<int, real>
  {
    map i | i in cands :: 0.0
  }

  /** The edge loop: entries for the edges whose two ends are candidates, in edge order. */
  function Restricted(edges: seq<Link>, ix: map<int, nat>): (es: seq<Entry>)
    ensures |es| <= |edges|
  {
    if edges == [] then []
    else
      var init := Restricted(edges[..|edges| - 1], ix);
      var e := edges[|edges| - 1];
      if e.src in ix && e.dst in ix then init + [Entry(ix[e.dst], ix[e.src], e.w)] else init
  }

  /** Every index `ix` hands out is below `n`. */
  predicate IndexBelow(ix: map<int, nat>, n: nat)
  {
    forall m :: m in ix ==> ix[m] < n
  }

  lemma {:induction false} RestrictedInRange(edges: seq<Link>, ix: map<int, nat>, n: nat)
    requires IndexBelow(ix, n)
    ensures InRange(Restricted(edges, ix), n)
  {
    if edges != [] {
      RestrictedInRange(edges[..|edges| - 1], ix, n);
    }
  }

  /** The entries of `_mini_ppr`'s sparse matrix, indices into the candidate list. */
  function Matrix(cands: seq<int>, edges: seq<Link>): (es: seq<Entry>)
    ensures InRange(es, |cands|)
  {
    RestrictedInRange(edges, IndexMap(cands), |cands|);
    Restricted(edges, IndexMap(cands))
  }

  lemma {:induction false} MatrixNonNegative(cands: seq<int>, edges: seq<Link>)
    requires forall k :: 0 <= k < |edges| ==> edges[k].w >= 0.0
    ensures var es := Matrix(cands, edges); forall k :: 0 <= k < |es| ==> es[k].w >= 0.0
  {
    var es := Matrix(cands, edges);
    assert es == Restricted(edges, IndexMap(cands));
    forall k | 0 <= k < |es| ensures es[k].w >= 0.0 {
      RestrictedEntryWeight(edges, IndexMap(cands), k);
    }
  }

  /** `col_w`: the total weight of each column. */
  function ColWeights(es: seq<Entry>, n: nat): (cw: seq<real>)
    requires InRange(es, n)
    ensures |cw| == n
  {
    if es == [] then Zeros(n)
    else
      var cw := ColWeights(es[..|es| - 1], n);
      var e := es[|es| - 1];
      cw[e.col := cw[e.col] + e.w]
  }

  /** `col_w[col_w == 0.0] = 1.0`. */
  function Divisors(cw: seq<real>): (d: seq<real>)
    ensures |d| == |cw| && forall j :: 0 <= j < |cw| ==> d[j] != 0.0
  {
    seq(|cw|, j requires 0 <= j < |cw| => if cw[j] == 0.0 then 1.0 else cw[j])
  }

  /** `vals /= np.take(col_w, cols)`. */
  function Normalize(es: seq<Entry>, div: seq<real>): (r: seq<Entry>)
    requires InRange(es, |div|)
    requires forall j :: 0 <= j < |div| ==> div[j] != 0.0
    ensures |r| == |es| && InRange(r, |div|)
  {
    seq(|es|, k requires 0 <= k < |es| => Entry(es[k].row, es[k].col, es[k].w / div[es[k].col]))
  }

  /** The matrix after `col_w[col_w == 0.0] = 1.0` and `vals /= np.take(col_w, cols)`. */
  function Normalized(es: seq<Entry>, n: nat): (r: seq<Entry>)
    requires InRange(es, n)
    ensures |r| == |es| && InRange(r, n)
  {
    Normalize(es, Divisors(ColWeights(es, n)))
  }

  /** Every column of the matrix sums to 0 or 1. */
  predicate Substochastic(es: seq<Entry>, n: nat)
    requires InRange(es, n)
  {
    forall j :: 0 <= j < n ==> ColWeights(es, n)[j] == 0.0 || ColWeights(es, n)[j] == 1.0
  }

  /** Every column of the matrix sums to 1. */
  predicate Stochastic(es: seq<Entry>, n: nat)
    requires InRange(es, n)
  {
    forall j :: 0 <= j < n ==> ColWeights(es, n)[j] == 1.0
  }

  /** `vals[k] * r[cols[k]]`: what one entry carries from its column to its row. */
  function Contribution(e: Entry, r: seq<real>): real
    requires e.col < |r|
  {
    e.w * r[e.col]
  }

  /** `Ar[rows] += vals * r[cols]` read as an accumulation: every entry adds into its row. */
  function Propagate(es: seq<Entry>, r: seq<real>): (ar: seq<real>)
    requires InRange(es, |r|)
    ensures |ar| == |r|
  {
    if es == [] then Zeros(|r|)
    else
      var ar := Propagate(es[..|es| - 1], r);
      var e := es[|es| - 1];
      ar[e.row := ar[e.row] + Contribution(e, r)]
  }

  /** One update `alpha * v + (1 - alpha) * Ar`. */
  function Step(v: seq<real>, ar: seq<real>, alpha: real): (r: seq<real>)
    requires |ar| == |v|
    ensures |r| == |v|
  {
    seq(|v|, i requires 0 <= i < |v| => alpha * v[i] + (1.0 - alpha) * ar[i])
  }

  /** `r` after `iters` updates starting from `v`. */
  function Iterate(v: seq<real>, es: seq<Entry>, alpha: real, iters: int): (r: seq<real>)
    requires InRange(es, |v|)
    ensures |r| == |v|
    decreases iters
  {
    if iters <= 0 then v else Step(v, Propagate(es, Iterate(v, es, alpha, iters - 1)), alpha)
  }

  /** `seed_weights.get(i, 0.0)`. */
  function SeedOf(seeds: map<int, real>, i: int): real
  {
    if i in seeds then seeds[i] else 0.0
  }

  /** `[max(0.0, seed_weights.get(i, 0.0)) for i in candidate_ids]`. */
  function Clamped(cands: seq<int>, seeds: map<int, real>): (c: seq<real>)
    ensures |c| == |cands|
  {
    seq(|cands|, k requires 0 <= k < |cands| => MaxR(0.0, SeedOf(seeds, cands[k])))
  }

  /** `v` before normalisation: the clamped seeds, or all ones when they sum to at most 0. */
  function SeedBase(cands: seq<int>, seeds: map<int, real>): (b: seq<real>)
    ensures |b| == |cands|
  {
    var clamped := Clamped(cands, seeds);
    if Sum(clamped) <= 0.0 then seq(|cands|, _ => 1.0) else clamped
  }

  /** `v /= v.sum()`. */
  function SeedVector(cands: seq<int>, seeds: map<int, real>): (v: seq<real>)
    requires cands != []
    ensures |v| == |cands|
  {
    var b := SeedBase(cands, seeds);
    SeedBaseSum(cands, seeds);
    seq(|b|, k requires 0 <= k < |b| => b[k] / Sum(b))
  }

  /** What `_mini_ppr` returns. */
  function MiniPprResult(cands: seq<int>, edges: seq<Link>, seeds: map<int, real>, alpha: real, iters: int): map<int, real>
  {
    if cands == [] || edges == [] then ZeroScores(cands)
    else
      var es := Matrix(cands, edges);
      var cw := ColWeights(es, |cands|);
      if es == [] || Sum(cw) == 0.0 then ZeroScores(cands)
      else
        Scores(cands, Iterate(SeedVector(cands, seeds), Normalized(es, |cands|), alpha, iters))
  }

  /** `{i: float(x) for i, x in zip(candidate_ids, r)}`: a repeated id keeps its last score. */
  function Scores(cands: seq<int>, r: seq<real>): (m: map<int, real>)
    requires |r| == |cands|
    ensures forall i :: i in m <==> i in cands
  {
    map i | i in cands :: r[IndexMap(cands)[i]]
  }

  // ---------------------------------------------------------------------------
  // The seed vector

  lemma {:induction false} SeedBaseSum(cands: seq<int>, seeds: map<int, real>)
    requires cands != []
    ensures Sum(SeedBase(cands, seeds)) > 0.0
    ensures forall k :: 0 <= k < |cands| ==> SeedBase(cands, seeds)[k] >= 0.0
  {
    if Sum(Clamped(cands, seeds)) <= 0.0 {
      SumConstant(SeedBase(cands, seeds), 1.0);
    }
  }

  /**
   * The seed vector is non-negative and sums to 1: the clamped seeds rescaled when their
   * sum is positive, the uniform vector otherwise.
   */
  lemma {:induction false} SeedVectorSpec(cands: seq<int>, seeds: map<int, real>)
    requires cands != []
    ensures var v := SeedVector(cands, seeds);
      && Sum(v) == 1.0
      && (forall k :: 0 <= k < |v| ==> v[k] >= 0.0)
      && (Sum(Clamped(cands, seeds)) > 0.0 ==>
            forall k :: 0 <= k < |v| ==> v[k] == MaxR(0.0, SeedOf(seeds, cands[k])) / Sum(Clamped(cands, seeds)))
      && (Sum(Clamped(cands, seeds)) <= 0.0 ==> forall k :: 0 <= k < |v| ==> v[k] == 1.0 / |cands| as real)
  {
    var b := SeedBase(cands, seeds);
    var v := SeedVector(cands, seeds);
    SeedBaseSum(cands, seeds);
    SumScaled(b, v, Sum(b));
    DivSelf(Sum(b));
    forall k | 0 <= k < |v| ensures v[k] >= 0.0 {
      DivNonNegative(b[k], Sum(b));
    }
    if Sum(Clamped(cands, seeds)) <= 0.0 {
      SumConstant(b, 1.0);
    }
  }

  // ---------------------------------------------------------------------------
  // Column normalisation and conservation of mass

  lemma {:induction false} DotPointAdd(r: seq<real>, c: seq<real>, k: int, x: real)
    requires |r| == |c| && 0 <= k < |c|
    ensures Dot(r, c[k := c[k] + x]) == Dot(r, c) + x * r[k]
  {
    var c' := c[k := c[k] + x];
    if k < |c| - 1 {
      assert c'[..|c'| - 1] == c[..|c| - 1][k := c[k] + x];
      DotPointAdd(r[..|r| - 1], c[..|c| - 1], k, x);
    } else {
      assert c'[..|c'| - 1] == c[..|c| - 1];
    }
  }

  /** The mass `A r` carries: each column's weight times that column's entry of `r`. */
  lemma {:induction false} PropagateMass(es: seq<Entry>, r: seq<real>)
    requires InRange(es, |r|)
    ensures Sum(Propagate(es, r)) == Dot(r, ColWeights(es, |r|))
  {
    if es == [] {
      SumConstant(Zeros(|r|), 0.0);
      DotZero(r, Zeros(|r|));
    } else {
      PropagateSumLast(es, r);
      ColWeightsDotLast(es, r);
      PropagateMass(es[..|es| - 1], r);
    }
  }

  lemma {:induction false} PropagateSumLast(es: seq<Entry>, r: seq<real>)
    requires InRange(es, |r|) && es != []
    ensures InRange(es[..|es| - 1], |r|)
    ensures Sum(Propagate(es, r)) == Sum(Propagate(es[..|es| - 1], r)) + Contribution(es[|es| - 1], r)
  {
    var e := es[|es| - 1];
    SumPointAdd(Propagate(es[..|es| - 1], r), e.row, Contribution(e, r));
  }

  lemma {:induction false} ColWeightsDotLast(es: seq<Entry>, r: seq<real>)
    requires InRange(es, |r|) && es != []
    ensures InRange(es[..|es| - 1], |r|)
    ensures Dot(r, ColWeights(es, |r|)) == Dot(r, ColWeights(es[..|es| - 1], |r|)) + Contribution(es[|es| - 1], r)
  {
    var init := es[..|es| - 1];
    var e := es[|es| - 1];
    assert InRange(init, |r|) by {
      forall k | 0 <= k < |init| ensures init[k].row < |r| && init[k].col < |r| {
        assert init[k] == es[k];
      }
    }
    var cw := ColWeights(init, |r|);
    DotColumnAdd(r, cw, ColWeights(es, |r|), e);
  }

  /** Adding one entry's weight into its column adds its contribution to `r · col_w`. */
  lemma {:induction false} DotColumnAdd(r: seq<real>, cw: seq<real>, cw': seq<real>, e: Entry)
    requires |r| == |cw| && e.col < |r| && cw' == cw[e.col := cw[e.col] + e.w]
    ensures Dot(r, cw') == Dot(r, cw) + Contribution(e, r)
  {
    DotPointAdd(r, cw, e.col, e.w);
  }

  lemma {:induction false} DotZero(r: seq<real>, c: seq<real>)
    requires |r| == |c| && forall j :: 0 <= j < |c| ==> c[j] == 0.0
    ensures Dot(r, c) == 0.0
  {
    if r != [] {
      DotZero(r[..|r| - 1], c[..|c| - 1]);
    }
  }

  /** Dividing each entry by its column's divisor divides each column weight by it. */
  lemma {:induction false} NormalizeColumns(es: seq<Entry>, div: seq<real>)
    requires InRange(es, |div|)
    requires forall j :: 0 <= j < |div| ==> div[j] != 0.0
    ensures forall j :: 0 <= j < |div| ==>
      ColWeights(Normalize(es, div), |div|)[j] == ColWeights(es, |div|)[j] / div[j]
  {
    if es != [] {
      var init := es[..|es| - 1];
      var e := es[|es| - 1];
      NormalizeColumns(init, div);
      assert Normalize(es, div)[..|es| - 1] == Normalize(init, div);
    }
  }

  /**
   * After `vals /= col_w[cols]` every column that had weight sums to 1 and a column without
   * weight (divisor 1) stays at 0.
   */
  lemma {:induction false} NormalizedColumnSums(es: seq<Entry>, n: nat)
    requires InRange(es, n)
    ensures var cw := ColWeights(es, n);
      forall j :: 0 <= j < n ==>
        ColWeights(Normalized(es, n), n)[j] == if cw[j] == 0.0 then 0.0 else 1.0
  {
    var cw := ColWeights(es, n);
    NormalizeColumns(es, Divisors(cw));
    forall j | 0 <= j < n && cw[j] != 0.0 ensures cw[j] / Divisors(cw)[j] == 1.0 {
      DivSelf(cw[j]);
    }
  }

  /** The normalised matrix is substochastic, and stochastic when no column was empty. */
  lemma {:induction false} NormalizedStochastic(es: seq<Entry>, n: nat)
    requires InRange(es, n)
    ensures Substochastic(Normalized(es, n), n)
    ensures (forall j :: 0 <= j < n ==> ColWeights(es, n)[j] != 0.0) ==> Stochastic(Normalized(es, n), n)
  {
    NormalizedColumnSums(es, n);
  }

  /** With non-negative weights, the column weights are non-negative. */
  lemma {:induction false} ColWeightsNonNegative(es: seq<Entry>, n: nat)
    requires InRange(es, n) && forall k :: 0 <= k < |es| ==> es[k].w >= 0.0
    ensures forall j :: 0 <= j < n ==> ColWeights(es, n)[j] >= 0.0
  {
    if es != [] {
      ColWeightsNonNegative(es[..|es| - 1], n);
    }
  }

  lemma {:induction false} NormalizeNonNegative(es: seq<Entry>, n: nat)
    requires InRange(es, n) && forall k :: 0 <= k < |es| ==> es[k].w >= 0.0
    ensures var ns := Normalized(es, n); forall k :: 0 <= k < |ns| ==> ns[k].w >= 0.0
  {
    var cw := ColWeights(es, n);
    ColWeightsNonNegative(es, n);
    forall k | 0 <= k < |es| ensures es[k].w / Divisors(cw)[es[k].col] >= 0.0 {
      DivNonNegative(es[k].w, Divisors(cw)[es[k].col]);
    }
  }

  lemma {:induction false} PropagateNonNegative(es: seq<Entry>, r: seq<real>)
    requires InRange(es, |r|)
    requires forall k :: 0 <= k < |es| ==> es[k].w >= 0.0
    requires forall i :: 0 <= i < |r| ==> r[i] >= 0.0
    ensures forall i :: 0 <= i < |r| ==> Propagate(es, r)[i] >= 0.0
  {
    if es != [] {
      PropagateNonNegative(es[..|es| - 1], r);
    }
  }

  /** A 0/1 mask keeps at most the whole of a non-negative vector, and all of it when it is all ones. */
  lemma {:induction false} DotMask(r: seq<real>, mask: seq<real>)
    requires |r| == |mask|
    requires forall j :: 0 <= j < |r| ==> r[j] >= 0.0 && (mask[j] == 0.0 || mask[j] == 1.0)
    ensures 0.0 <= Dot(r, mask) <= Sum(r)
    ensures (forall j :: 0 <= j < |r| ==> mask[j] == 1.0) ==> Dot(r, mask) == Sum(r)
  {
    if r != [] {
      DotMask(r[..|r| - 1], mask[..|mask| - 1]);
    }
  }

  /** The sum of a pointwise mixture is the same mixture of the sums. */
  lemma {:induction false} SumMixture(a: seq<real>, b: seq<real>, c: seq<real>, x: real)
    requires |a| == |b| == |c|
    requires forall i :: 0 <= i < |c| ==> c[i] == x * a[i] + (1.0 - x) * b[i]
    ensures Sum(c) == x * Sum(a) + (1.0 - x) * Sum(b)
  {
    if c != [] {
      var n := |c| - 1;
      SumMixture(a[..n], b[..n], c[..n], x);
    }
  }

  /**
   * Each update keeps `r` non-negative and its mass at most 1 (exactly 1 when every column
   * has weight), given a non-negative seed of mass 1, column sums of 0 or 1, and
   * `0 <= alpha <= 1`.
   */
  lemma {:induction false} IterateMass(v: seq<real>, es: seq<Entry>, alpha: real, iters: int)
    requires InRange(es, |v|)
    requires 0.0 <= alpha <= 1.0
    requires Sum(v) == 1.0 && forall i :: 0 <= i < |v| ==> v[i] >= 0.0
    requires forall k :: 0 <= k < |es| ==> es[k].w >= 0.0
    requires Substochastic(es, |v|)
    ensures var r := Iterate(v, es, alpha, iters);
      && (forall i :: 0 <= i < |r| ==> r[i] >= 0.0)
      && Sum(r) <= 1.0
      && (Stochastic(es, |v|) ==> Sum(r) == 1.0)
    decreases iters
  {
    if iters > 0 {
      var prev := Iterate(v, es, alpha, iters - 1);
      IterateMass(v, es, alpha, iters - 1);
      PropagateNonNegative(es, prev);
      PropagateMass(es, prev);
      DotMask(prev, ColWeights(es, |v|));
      StepMass(v, Propagate(es, prev), alpha);
    }
  }

  /** One update `alpha * v + (1 - alpha) * Ar` mixes two non-negative vectors of mass at most 1. */
  lemma {:induction false} StepMass(v: seq<real>, ar: seq<real>, alpha: real)
    requires |ar| == |v| && 0.0 <= alpha <= 1.0
    requires Sum(v) == 1.0 && forall i :: 0 <= i < |v| ==> v[i] >= 0.0
    requires Sum(ar) <= 1.0 && forall i :: 0 <= i < |ar| ==> ar[i] >= 0.0
    ensures var r := Step(v, ar, alpha);
      && (forall i :: 0 <= i < |r| ==> r[i] >= 0.0)
      && Sum(r) <= 1.0
      && (Sum(ar) == 1.0 ==> Sum(r) == 1.0)
  {
    StepNonNegative(v, ar, alpha);
    SumMixture(v, ar, Step(v, ar, alpha), alpha);
    MixtureMass(alpha, Sum(v), Sum(ar));
  }

  lemma {:induction false} StepNonNegative(v: seq<real>, ar: seq<real>, alpha: real)
    requires |ar| == |v| && 0.0 <= alpha <= 1.0
    requires forall i :: 0 <= i < |v| ==> v[i] >= 0.0 && ar[i] >= 0.0
    ensures var r := Step(v, ar, alpha); forall i :: 0 <= i < |r| ==> r[i] >= 0.0
  {
    var r := Step(v, ar, alpha);
    forall i | 0 <= i < |r| ensures r[i] >= 0.0 {
      MulNonNegative(alpha, v[i]);
      MulNonNegative(1.0 - alpha, ar[i]);
    }
  }

  /** `alpha * one + (1 - alpha) * s`, with `one` = 1, is at most 1 for a mass `s` of at most 1, and 1 when `s` is. */
  lemma {:induction false} MixtureMass(alpha: real, one: real, s: real)
    requires 0.0 <= alpha <= 1.0 && one == 1.0 && s <= 1.0
    ensures alpha * one + (1.0 - alpha) * s <= 1.0
    ensures s == 1.0 ==> alpha * one + (1.0 - alpha) * s == 1.0
  {
    MulNonNegative(1.0 - alpha, 1.0 - s);
    assert 1.0 - (alpha * 1.0 + (1.0 - alpha) * s) == (1.0 - alpha) * (1.0 - s);
  }

  lemma {:induction false} MulNonNegative(a: real, b: real)
    requires a >= 0.0 && b >= 0.0
    ensures a * b >= 0.0
  {
  }

  // ---------------------------------------------------------------------------
  // What `_mini_ppr` returns

  /** Every candidate gets a score and nothing else does. */
  lemma {:induction false} MiniPprKeys(cands: seq<int>, edges: seq<Link>, seeds: map<int, real>, alpha: real, iters: int)
    ensures forall i :: i in MiniPprResult(cands, edges, seeds, alpha, iters) <==> i in cands
  {
  }

  /**
   * All scores are 0 when there are no edges or no edge joins two candidates. The case of
   * joining edges whose weights cancel out is covered by `MiniPprResultCases`.
   */
  lemma {:induction false} MiniPprZero(cands: seq<int>, edges: seq<Link>, seeds: map<int, real>, alpha: real, iters: int)
    requires edges == []
      || (forall k :: 0 <= k < |edges| ==> edges[k].src !in cands || edges[k].dst !in cands)
    ensures forall i :: i in cands ==> MiniPprResult(cands, edges, seeds, alpha, iters)[i] == 0.0
  {
    if cands != [] && edges != [] {
      RestrictedNone(edges, IndexMap(cands));
    }
  }

  /** No entry is kept when no edge has both ends indexed. */
  lemma {:induction false} RestrictedNone(edges: seq<Link>, ix: map<int, nat>)
    requires forall k :: 0 <= k < |edges| ==> edges[k].src !in ix || edges[k].dst !in ix
    ensures Restricted(edges, ix) == []
  {
    if edges != [] {
      RestrictedNone(edges[..|edges| - 1], ix);
    }
  }

  /** One entry of `Restricted` over non-negative weights is non-negative. */
  lemma {:induction false} RestrictedEntryWeight(edges: seq<Link>, ix: map<int, nat>, k: nat)
    requires forall t :: 0 <= t < |edges| ==> edges[t].w >= 0.0
    requires k < |Restricted(edges, ix)|
    ensures Restricted(edges, ix)[k].w >= 0.0
  {
    RestrictedNonNegative(edges, ix);
  }

  /** With non-negative edge weights every entry has a non-negative weight. */
  lemma {:induction false} RestrictedNonNegative(edges: seq<Link>, ix: map<int, nat>)
    requires forall k :: 0 <= k < |edges| ==> edges[k].w >= 0.0
    ensures forall k :: 0 <= k < |Restricted(edges, ix)| ==> Restricted(edges, ix)[k].w >= 0.0
  {
    if edges != [] {
      var init := edges[..|edges| - 1];
      var e := edges[|edges| - 1];
      assert forall k :: 0 <= k < |init| ==> init[k] == edges[k];
      RestrictedNonNegative(init, ix);
      var prev := Restricted(init, ix);
      var es := Restricted(edges, ix);
      if e.src in ix && e.dst in ix {
        assert es == prev + [Entry(ix[e.dst], ix[e.src], e.w)];
      } else {
        assert es == prev;
      }
      forall k | 0 <= k < |es| ensures es[k].w >= 0.0 {
        if k < |prev| {
          assert es[k] == prev[k];
        }
      }
    }
  }

  /** An edge between two candidates becomes an entry of the matrix. */
  lemma {:induction false} RestrictedHas(edges: seq<Link>, ix: map<int, nat>, t: int)
    requires 0 <= t < |edges| && edges[t].src in ix && edges[t].dst in ix
    ensures Entry(ix[edges[t].dst], ix[edges[t].src], edges[t].w) in Restricted(edges, ix)
  {
    if t < |edges| - 1 {
      RestrictedHas(edges[..|edges| - 1], ix, t);
    }
  }

  /** A column's weight is at least the weight of each of its entries, when weights are non-negative. */
  lemma {:induction false} ColWeightsAtLeast(es: seq<Entry>, n: nat, k: int)
    requires InRange(es, n) && forall t :: 0 <= t < |es| ==> es[t].w >= 0.0
    requires 0 <= k < |es|
    ensures ColWeights(es, n)[es[k].col] >= es[k].w
  {
    ColWeightsNonNegative(es, n);
    if k < |es| - 1 {
      ColWeightsAtLeast(es[..|es| - 1], n, k);
    } else {
      ColWeightsNonNegative(es[..|es| - 1], n);
    }
  }

  /** The scores in candidate order. */
  function ScoreVector(res: map<int, real>, cands: seq<int>): (s: seq<real>)
    ensures |s| == |cands|
  {
    seq(|cands|, k requires 0 <= k < |cands| => if cands[k] in res then res[cands[k]] else 0.0)
  }

  /** With distinct candidates, reading the scores back in candidate order gives `r`. */
  lemma {:induction false} ScoreVectorOfScores(cands: seq<int>, r: seq<real>)
    requires Distinct(cands) && |r| == |cands|
    ensures ScoreVector(Scores(cands, r), cands) == r
  {
    IndexMapOfDistinct(cands);
  }

  /** The vector `_mini_ppr` iterates when at least one edge joins two candidates. */
  function PprVector(cands: seq<int>, edges: seq<Link>, seeds: map<int, real>, alpha: real, iters: int): (r: seq<real>)
    requires cands != []
    ensures |r| == |cands|
  {
    var es := Matrix(cands, edges);
    Iterate(SeedVector(cands, seeds), Normalized(es, |cands|), alpha, iters)
  }

  /** The two shapes of `_mini_ppr`'s result. */
  predicate Trivial(cands: seq<int>, edges: seq<Link>)
  {
    cands == [] || edges == [] || Matrix(cands, edges) == [] || Sum(ColWeights(Matrix(cands, edges), |cands|)) == 0.0
  }

  lemma {:induction false} MiniPprResultCases(cands: seq<int>, edges: seq<Link>, seeds: map<int, real>, alpha: real, iters: int)
    ensures Trivial(cands, edges) ==> MiniPprResult(cands, edges, seeds, alpha, iters) == ZeroScores(cands)
    ensures !Trivial(cands, edges) ==> MiniPprResult(cands, edges, seeds, alpha, iters) == Scores(cands, PprVector(cands, edges, seeds, alpha, iters))
  {
  }

  lemma {:induction false} ZeroScoreVector(cands: seq<int>)
    ensures Sum(ScoreVector(ZeroScores(cands), cands)) == 0.0
  {
    SumConstant(ScoreVector(ZeroScores(cands), cands), 0.0);
  }

  /**
   * With `0 <= alpha <= 1`, non-negative edge weights and distinct candidates, every score
   * is non-negative and the scores sum to at most 1: each iteration keeps the mass of a
   * column that has out-edges and drops the mass sitting on a candidate without any.
   */
  lemma {:induction false} MiniPprMass(cands: seq<int>, edges: seq<Link>, seeds: map<int, real>, alpha: real, iters: int)
    requires Distinct(cands) && 0.0 <= alpha <= 1.0
    requires forall k :: 0 <= k < |edges| ==> edges[k].w >= 0.0
    ensures var res := MiniPprResult(cands, edges, seeds, alpha, iters);
      && (forall i :: i in res ==> res[i] >= 0.0)
      && Sum(ScoreVector(res, cands)) <= 1.0
  {
    MiniPprResultCases(cands, edges, seeds, alpha, iters);
    if Trivial(cands, edges) {
      ZeroScoreVector(cands);
    } else {
      var r := PprVector(cands, edges, seeds, alpha, iters);
      PprVectorMass(cands, edges, seeds, alpha, iters);
      ScoreVectorOfScores(cands, r);
      IndexMapOfDistinct(cands);
    }
  }

  /**
   * When every candidate has a positively weighted edge to a candidate, no mass leaks: the
   * scores sum to exactly 1.
   */
  lemma {:induction false} MiniPprFullMass(cands: seq<int>, edges: seq<Link>, seeds: map<int, real>, alpha: real, iters: int)
    requires Distinct(cands) && 0.0 <= alpha <= 1.0
    requires forall k :: 0 <= k < |edges| ==> edges[k].w >= 0.0
    requires cands != [] && forall j :: 0 <= j < |cands| ==> HasOutEdge(edges, cands, cands[j])
    ensures Sum(ScoreVector(MiniPprResult(cands, edges, seeds, alpha, iters), cands)) == 1.0
  {
    AllColumnsWeighted(cands, edges);
    MiniPprResultCases(cands, edges, seeds, alpha, iters);
    PprVectorMass(cands, edges, seeds, alpha, iters);
    ScoreVectorOfScores(cands, PprVector(cands, edges, seeds, alpha, iters));
  }

  /** Candidate `c` is the source of a positively weighted edge to a candidate. */
  predicate HasOutEdge(edges: seq<Link>, cands: seq<int>, c: int)
  {
    exists t :: 0 <= t < |edges| && edges[t].src == c && edges[t].dst in cands && edges[t].w > 0.0
  }

  lemma {:induction false} AllColumnsWeighted(cands: seq<int>, edges: seq<Link>)
    requires Distinct(cands)
    requires forall k :: 0 <= k < |edges| ==> edges[k].w >= 0.0
    requires forall j :: 0 <= j < |cands| ==> HasOutEdge(edges, cands, cands[j])
    ensures forall j :: 0 <= j < |cands| ==> ColWeights(Matrix(cands, edges), |cands|)[j] > 0.0
    ensures cands != [] ==> !Trivial(cands, edges)
  {
    forall j | 0 <= j < |cands| ensures ColWeights(Matrix(cands, edges), |cands|)[j] > 0.0 {
      ColumnWeighted(cands, edges, j);
    }
    if cands != [] {
      var es := Matrix(cands, edges);
      assert es != [] by {
        ColumnWeighted(cands, edges, 0);
      }
      SumPositive(ColWeights(es, |cands|));
    }
  }

  lemma {:induction false} ColumnWeighted(cands: seq<int>, edges: seq<Link>, j: int)
    requires Distinct(cands) && 0 <= j < |cands|
    requires forall k :: 0 <= k < |edges| ==> edges[k].w >= 0.0
    requires HasOutEdge(edges, cands, cands[j])
    ensures Matrix(cands, edges) != [] && ColWeights(Matrix(cands, edges), |cands|)[j] > 0.0
  {
    var ix := IndexMap(cands);
    IndexMapOfDistinct(cands);
    var es := Matrix(cands, edges);
    MatrixNonNegative(cands, edges);
    var t :| 0 <= t < |edges| && edges[t].src == cands[j] && edges[t].dst in cands && edges[t].w > 0.0;
    RestrictedHas(edges, ix, t);
    var k :| 0 <= k < |es| && es[k] == Entry(ix[edges[t].dst], ix[edges[t].src], edges[t].w);
    ColWeightsAtLeast(es, |cands|, k);
  }

  lemma {:induction false} SumPositive(s: seq<real>)
    requires s != [] && forall i :: 0 <= i < |s| ==> s[i] > 0.0
    ensures Sum(s) > 0.0
  {
    if |s| > 1 {
      SumPositive(s[..|s| - 1]);
    } else {
      SumNonNegative(s[..0]);
    }
  }

  /** The iterated vector is non-negative with mass at most 1, and exactly 1 when every column has weight. */
  lemma {:induction false} PprVectorMass(cands: seq<int>, edges: seq<Link>, seeds: map<int, real>, alpha: real, iters: int)
    requires 0.0 <= alpha <= 1.0 && cands != []
    requires forall k :: 0 <= k < |edges| ==> edges[k].w >= 0.0
    ensures var r := PprVector(cands, edges, seeds, alpha, iters);
      && (forall k :: 0 <= k < |r| ==> r[k] >= 0.0) && Sum(r) <= 1.0
      && ((forall j :: 0 <= j < |cands| ==> ColWeights(Matrix(cands, edges), |cands|)[j] != 0.0) ==> Sum(r) == 1.0)
  {
    var es := Matrix(cands, edges);
    MatrixNonNegative(cands, edges);
    SeedVectorSpec(cands, seeds);
    NormalizedStochastic(es, |cands|);
    NormalizeNonNegative(es, |cands|);
    IterateMass(SeedVector(cands, seeds), Normalized(es, |cands|), alpha, iters);
  }

  // ---------------------------------------------------------------------------
  // `Ar[A[0]] += A[2] * r[A[1]]` as NumPy runs it

  /**
   * NumPy's `a[idx] += x` is buffered: it reads `a[idx]` (all zeros here), adds `x`, and
   * writes the results back in order, so a row named by several entries keeps only the
   * contribution of its last entry.
   */
  function PropagateAsWritten(es: seq<Entry>, r: seq<real>): (ar: seq<real>)
    requires InRange(es, |r|)
    ensures |ar| == |r|
  {
    if es == [] then Zeros(|r|)
    else
      var ar := PropagateAsWritten(es[..|es| - 1], r);
      var e := es[|es| - 1];
      ar[e.row := 0.0 + Contribution(e, r)]
  }

  /** No two entries share a destination row. */
  predicate DistinctRows(es: seq<Entry>)
  {
    forall a, b :: 0 <= a < b < |es| ==> es[a].row != es[b].row
  }

  /** A row that no entry names receives nothing. */
  lemma {:induction false} PropagateUntouched(es: seq<Entry>, r: seq<real>, i: int)
    requires InRange(es, |r|) && 0 <= i < |r|
    requires forall k :: 0 <= k < |es| ==> es[k].row != i
    ensures Propagate(es, r)[i] == 0.0
  {
    if es != [] {
      PropagateUntouched(es[..|es| - 1], r, i);
    }
  }

  /** The buffered update agrees with the accumulation exactly when no destination repeats. */
  lemma {:induction false} PropagateAsWrittenDistinctRows(es: seq<Entry>, r: seq<real>)
    requires InRange(es, |r|) && DistinctRows(es)
    ensures PropagateAsWritten(es, r) == Propagate(es, r)
  {
    if es != [] {
      var init := es[..|es| - 1];
      var e := es[|es| - 1];
      assert DistinctRows(init);
      PropagateAsWrittenDistinctRows(init, r);
      PropagateUntouched(init, r, e.row);
    }
  }

  /** Candidates 1, 2, 3 with edges 1->3, 2->3 and 3->1 of weight 1. */
  const ExampleCands: seq<int> := [1, 2, 3]
  const ExampleEdges: seq<Link> := [Link(1, 3, 1.0), Link(2, 3, 1.0), Link(3, 1, 1.0)]
  const ExampleMatrix: seq<Entry> := [Entry(2, 0, 1.0), Entry(2, 1, 1.0), Entry(0, 2, 1.0)]
  const Third: seq<real> := [1.0 / 3.0, 1.0 / 3.0, 1.0 / 3.0]

  lemma {:induction false} ExampleMatrixIs()
    ensures Matrix(ExampleCands, ExampleEdges) == ExampleMatrix
    ensures Normalized(ExampleMatrix, 3) == ExampleMatrix
  {
    ExampleRestricted();
    ExampleColWeights();
  }

  lemma {:induction false} ExampleRestricted()
    ensures Restricted(ExampleEdges, IndexMap(ExampleCands)) == ExampleMatrix
  {
    ExampleIndex();
    var edges, es := ExampleEdges, ExampleMatrix;
    var ix: map<int, nat> := map[1 := 0, 2 := 1, 3 := 2];
    assert edges[..2][..1] == edges[..1];
    assert Restricted(edges[..1], ix) == es[..1];
    assert Restricted(edges[..2], ix) == es[..2];
  }

  lemma {:induction false} ExampleIndex()
    ensures IndexMap(ExampleCands) == map[1 := 0, 2 := 1, 3 := 2]
  {
    var cands := ExampleCands;
    assert cands[..2][..1] == cands[..1];
    assert IndexMap(cands[..1]) == map[1 := 0];
    assert IndexMap(cands[..2]) == map[1 := 0, 2 := 1];
  }

  lemma {:induction false} ExampleColWeights()
    ensures ColWeights(ExampleMatrix, 3) == [1.0, 1.0, 1.0]
  {
    var es := ExampleMatrix;
    assert es[..2][..1] == es[..1];
    assert ColWeights(es[..1], 3) == [1.0, 0.0, 0.0];
    assert ColWeights(es[..2], 3) == [1.0, 1.0, 0.0];
  }

  lemma {:induction false} ExampleSeedIs()
    ensures SeedVector(ExampleCands, map[]) == Third
  {
    Sum3(Clamped(ExampleCands, map[]));
    assert SeedBase(ExampleCands, map[]) == [1.0, 1.0, 1.0];
    Sum3(SeedBase(ExampleCands, map[]));
  }

  lemma {:induction false} ExamplePropagate()
    ensures Propagate(ExampleMatrix, Third) == [1.0 / 3.0, 0.0, 2.0 / 3.0]
    ensures PropagateAsWritten(ExampleMatrix, Third) == [1.0 / 3.0, 0.0, 1.0 / 3.0]
  {
    var es, v := ExampleMatrix, Third;
    assert es[..2][..1] == es[..1];
    assert Propagate(es[..1], v) == [0.0, 0.0, 1.0 / 3.0];
    assert Propagate(es[..2], v) == [0.0, 0.0, 2.0 / 3.0];
    assert PropagateAsWritten(es[..1], v) == [0.0, 0.0, 1.0 / 3.0];
    assert PropagateAsWritten(es[..2], v) == [0.0, 0.0, 1.0 / 3.0];
  }

  /**
   * On the example and without seeds, one iteration with the default `alpha = 0.2` keeps a
   * mass of 1 with the accumulating update, but the buffered update drops one of the two
   * contributions into candidate 3 and leaves 11/15.
   */
  lemma {:induction false} FindingLostMass()
    ensures var ns := Normalized(Matrix(ExampleCands, ExampleEdges), 3);
      var v := SeedVector(ExampleCands, map[]);
      && Sum(Step(v, Propagate(ns, v), 0.2)) == 1.0
      && Sum(Step(v, PropagateAsWritten(ns, v), 0.2)) == 11.0 / 15.0
  {
    ExampleMatrixIs();
    ExampleSeedIs();
    ExamplePropagate();
    var good := Step(Third, Propagate(ExampleMatrix, Third), 0.2);
    var bad := Step(Third, PropagateAsWritten(ExampleMatrix, Third), 0.2);
    assert good == [1.0 / 3.0, 1.0 / 15.0, 3.0 / 5.0];
    assert bad == [1.0 / 3.0, 1.0 / 15.0, 1.0 / 3.0];
    Sum3(good);
    Sum3(bad);
  }

  lemma {:induction false} Sum3(s: seq<real>)
    requires |s| == 3
    ensures Sum(s) == s[0] + s[1] + s[2]
  {
    var p := s[..2];
    var q := p[..1];
    assert q == [s[0]] && q[..0] == [];
    assert Sum(q) == s[0];
    assert Sum(p) == Sum(q) + s[1];
    assert Sum(s) == Sum(p) + s[2];
  }

  // ---------------------------------------------------------------------------
  // `_mini_ppr` over arrays

  /** `_mini_ppr`: the scores of the candidates after `iters` updates. */
  method MiniPpr(cands: seq<int>, edges: seq<Link>, seeds: map<int, real>, alpha: real, iters: int)
    returns (res: map<int, real>)
    ensures res == MiniPprResult(cands, edges, seeds, alpha, iters)
  {
    MiniPprResultCases(cands, edges, seeds, alpha, iters);
    if |cands| == 0 || |edges| == 0 {
      return ZeroScores(cands);
    }
    var es, colW := CollectEntries(cands, edges);
    var total := ArraySum(colW);
    if |es| == 0 || total == 0.0 {
      return ZeroScores(cands);
    }
    ReplaceZeros(colW);
    var ns := DivideByColumn(es, colW);
    var v := SeedArray(cands, seeds);
    var r := PowerIterate(v, ns, alpha, iters);
    res := Scores(cands, r[..]);
  }

  /** The edge loop: the entries in edge order, with `col_w` accumulated alongside. */
  method CollectEntries(cands: seq<int>, edges: seq<Link>) returns (es: seq<Entry>, colW: array<real>)
    ensures fresh(colW)
    ensures es == Matrix(cands, edges) && colW[..] == ColWeights(es, |cands|)
  {
    var ix := IndexMap(cands);
    var n := |cands|;
    colW := new real[n](_ => 0.0);
    es := [];
    assert colW[..] == Zeros(n);
    assert IndexBelow(ix, n);
    for t := 0 to |edges|
      invariant es == Restricted(edges[..t], ix)
      invariant InRange(es, n)
      invariant colW[..] == ColWeights(es, n)
    {
      RestrictedStep(edges, t, ix, n);
      var e := edges[t];
      if e.src in ix && e.dst in ix {
        es := AddEntry(es, colW, Entry(ix[e.dst], ix[e.src], e.w));
      }
    }
    assert edges[..|edges|] == edges;
  }

  /** One kept edge: its entry is appended and its weight added to its column's `col_w`. */
  method AddEntry(es: seq<Entry>, colW: array<real>, e: Entry) returns (es': seq<Entry>)
    requires InRange(es, colW.Length) && e.row < colW.Length && e.col < colW.Length
    requires colW[..] == ColWeights(es, colW.Length)
    modifies colW
    ensures es' == es + [e] && InRange(es', colW.Length)
    ensures colW[..] == ColWeights(es', colW.Length)
  {
    ColWeightsSnoc(es, e, colW.Length);
    es' := es + [e];
    colW[e.col] := colW[e.col] + e.w;
  }

  lemma {:induction false} RestrictedStep(edges: seq<Link>, t: nat, ix: map<int, nat>, n: nat)
    requires t < |edges| && IndexBelow(ix, n)
    ensures var e := edges[t];
      && Restricted(edges[..t + 1], ix)
         == Restricted(edges[..t], ix) + (if e.src in ix && e.dst in ix then [Entry(ix[e.dst], ix[e.src], e.w)] else [])
      && InRange(Restricted(edges[..t + 1], ix), n)
  {
    assert edges[..t + 1][..t] == edges[..t];
    RestrictedInRange(edges[..t + 1], ix, n);
  }

  lemma {:induction false} ColWeightsSnoc(es: seq<Entry>, e: Entry, n: nat)
    requires InRange(es, n) && e.row < n && e.col < n
    ensures InRange(es + [e], n)
    ensures ColWeights(es + [e], n) == ColWeights(es, n)[e.col := ColWeights(es, n)[e.col] + e.w]
  {
    assert forall k :: 0 <= k < |es| ==> es[k] == (es + [e])[k];
    assert (es + [e])[..|es|] == es;
  }

  /** `np.sum(a)`. */
  method ArraySum(a: array<real>) returns (s: real)
    ensures s == Sum(a[..])
  {
    s := 0.0;
    for i := 0 to a.Length
      invariant s == Sum(a[..i])
    {
      assert a[..i + 1][..i] == a[..i];
      s := s + a[i];
    }
    assert a[..a.Length] == a[..];
  }

  /** `col_w[col_w == 0.0] = 1.0`, in place. */
  method ReplaceZeros(colW: array<real>)
    modifies colW
    ensures colW[..] == Divisors(old(colW[..]))
  {
    for j := 0 to colW.Length
      invariant forall k :: 0 <= k < j ==> colW[k] == Divisors(old(colW[..]))[k]
      invariant forall k :: j <= k < colW.Length ==> colW[k] == old(colW[k])
    {
      if colW[j] == 0.0 {
        colW[j] := 1.0;
      }
    }
  }

  /** `vals /= np.take(col_w, cols)`. */
  method DivideByColumn(es: seq<Entry>, div: array<real>) returns (ns: seq<Entry>)
    requires InRange(es, div.Length) && forall j :: 0 <= j < div.Length ==> div[j] != 0.0
    ensures ns == Normalize(es, div[..])
  {
    ns := [];
    for k := 0 to |es|
      invariant |ns| == k && forall t :: 0 <= t < k ==> ns[t] == Normalize(es, div[..])[t]
    {
      ns := ns + [Entry(es[k].row, es[k].col, es[k].w / div[es[k].col])];
    }
  }

  /** The seed vector `v`, clamped, replaced by ones when its sum is at most 0, then normalised. */
  method SeedArray(cands: seq<int>, seeds: map<int, real>) returns (v: array<real>)
    requires cands != []
    ensures fresh(v) && v[..] == SeedVector(cands, seeds)
  {
    var n := |cands|;
    v := new real[n](k requires 0 <= k < n => MaxR(0.0, SeedOf(seeds, cands[k])));
    assert v[..] == Clamped(cands, seeds);
    var s := ArraySum(v);
    if s <= 0.0 {
      for k := 0 to n
        invariant forall t :: 0 <= t < k ==> v[t] == 1.0
      {
        v[k] := 1.0;
      }
    }
    assert v[..] == SeedBase(cands, seeds);
    SeedBaseSum(cands, seeds);
    s := ArraySum(v);
    ghost var b := v[..];
    for k := 0 to n
      invariant forall t :: 0 <= t < k ==> v[t] == b[t] / s
      invariant forall t :: k <= t < n ==> v[t] == b[t]
    {
      v[k] := v[k] / s;
    }
  }

  /** `r = v.copy()` followed by `iters` updates `r = alpha * v + (1 - alpha) * Ar`. */
  method PowerIterate(v: array<real>, es: seq<Entry>, alpha: real, iters: int) returns (r: array<real>)
    requires InRange(es, v.Length)
    ensures r.Length == v.Length && r[..] == Iterate(v[..], es, alpha, iters)
  {
    r := new real[v.Length](i requires 0 <= i < v.Length reads v => v[i]);
    assert r[..] == Iterate(v[..], es, alpha, 0);
    for it := 0 to Max(iters, 0)
      invariant r.Length == v.Length && r[..] == Iterate(v[..], es, alpha, it)
    {
      var ar := Accumulate(es, r);
      r := Mix(v, ar, alpha);
    }
  }

  /** `Ar = np.zeros(N)` then every entry adds `vals[k] * r[cols[k]]` into `Ar[rows[k]]`. */
  method Accumulate(es: seq<Entry>, r: array<real>) returns (ar: array<real>)
    requires InRange(es, r.Length)
    ensures fresh(ar) && ar[..] == Propagate(es, r[..])
  {
    ar := new real[r.Length](_ => 0.0);
    assert ar[..] == Zeros(r.Length);
    for k := 0 to |es|
      invariant ar != r && ar[..] == Propagate(es[..k], r[..])
    {
      PropagatePrefix(es, r[..], k);
      var e := es[k];
      var c := e.w * r[e.col];
      assert c == Contribution(e, r[..]);
      ar[e.row] := ar[e.row] + c;
    }
    assert es[..|es|] == es;
  }

  /** One more entry of the accumulation. */
  lemma {:induction false} PropagatePrefix(es: seq<Entry>, r: seq<real>, k: int)
    requires InRange(es, |r|) && 0 <= k < |es|
    ensures InRange(es[..k], |r|)
    ensures InRange(es[..k + 1], |r|)
    ensures Propagate(es[..k + 1], r) == Propagate(es[..k], r)[es[k].row := Propagate(es[..k], r)[es[k].row] + Contribution(es[k], r)]
  {
    var p := es[..k + 1];
    assert p[..|p| - 1] == es[..k] && p[|p| - 1] == es[k];
    assert InRange(p, |r|) && p != [];
  }

  /** `alpha * v + (1 - alpha) * Ar`, a fresh array. */
  method Mix(v: array<real>, ar: array<real>, alpha: real) returns (r: array<real>)
    requires ar.Length == v.Length
    ensures fresh(r) && r[..] == Step(v[..], ar[..], alpha)
  {
    r := new real[v.Length];
    for i := 0 to v.Length
      invariant forall k :: 0 <= k < i ==> r[k] == alpha * v[k] + (1.0 - alpha) * ar[k]
    {
      r[i] := alpha * v[i] + (1.0 - alpha) * ar[i];
    }
    assert forall k :: 0 <= k < v.Length ==> r[..][k] == Step(v[..], ar[..], alpha)[k];
  }
}
