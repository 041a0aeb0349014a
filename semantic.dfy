/**
 * The character-trigram embedding of `semantic.py`: trigrams of the padded, lowercased
 * text are hashed into `dims` buckets, the bucket counts are L2-normalised, and
 * `dense_search` ranks the stored vectors by their dot product with the query's.
 * Python's salted `hash`, the square root of the norm and the loaded `vecs.npz` arrays are
 * parameters.
 */
module Semantic {
  import opened Common
  import opened Strings
  import StableSort
  import Bm25Index

  /** `DIMS`, the default embedding width. */
  const DIMS: nat := 1024

  // ---------------------------------------------------------------------------------
  // Trigrams

  /** `" " + s.lower() + " "`. */
  function Padded(s: string): (p: string)
    ensures |p| == |s| + 2
  {
    " " + Lower(s) + " "
  }

  /** `_char_trigrams`: `[p[i:i+3] for i in range(len(p) - 2)]` over the padded text. */
  function CharTrigrams(s: string): seq<string>
  {
    var p := Padded(s);
    seq(|p| - 2, i requires 0 <= i < |p| - 2 => p[i..i + 3])
  }

  /** The lowercased character at `i`, or the padding space outside the text. */
  function CharOrSpace(s: string, i: int): char
  {
    if 0 <= i < |s| then LowerChar(s[i]) else ' '
  }

  /**
   * One trigram per character: trigram `i` is the lowercased character `i` with its two
   * neighbours, a space standing in beyond either end. So the empty text has no trigrams.
   */
  lemma {:induction false} CharTrigramsSpec(s: string)
    ensures |CharTrigrams(s)| == |s|
    ensures forall i :: 0 <= i < |s| ==>
      CharTrigrams(s)[i] == [CharOrSpace(s, i - 1), CharOrSpace(s, i), CharOrSpace(s, i + 1)]
  {
    var p := Padded(s);
    assert forall j :: 0 <= j < |p| ==> p[j] == CharOrSpace(s, j - 1);
  }

  // ---------------------------------------------------------------------------------
  // Bucket counts and the embedding

  /**
   * `(hash(tri) % dims + dims) % dims`. For a positive divisor Python's `%` is the
   * non-negative remainder, which is also Dafny's.
   */
  function Bucket(h: int, dims: nat): (b: nat)
    requires dims > 0
    ensures b < dims
  {
    (h % dims + dims) % dims
  }

  /** The outer `+ dims) % dims` changes nothing: the bucket is the remainder of the hash. */
  lemma {:induction false} BucketIsRemainder(h: int, dims: nat)
    requires dims > 0
    ensures Bucket(h, dims) == h % dims
  {
    var r := h % dims;
    assert 0 <= r < dims;
    assert (r + dims) % dims == r by {
      assert r + dims == 1 * dims + r;
    }
  }

  /** The counts after `v[h] += 1.0` for each trigram in turn. */
  function Counts(tris: seq<string>, dims: nat, hash: string -> int): (v: seq<real>)
    requires dims > 0
    ensures |v| == dims
  {
    if tris == [] then Zeros(dims)
    else
      var v := Counts(tris[..|tris| - 1], dims, hash);
      var b := Bucket(hash(tris[|tris| - 1]), dims);
      v[b := v[b] + 1.0]
  }

  /** Reference definition: how many trigrams hash into bucket `b`. */
  function BucketHits(tris: seq<string>, dims: nat, hash: string -> int, b: nat): nat
    requires dims > 0
  {
    if tris == [] then 0
    else (if Bucket(hash(tris[0]), dims) == b then 1 else 0) + BucketHits(tris[1..], dims, hash, b)
  }

  lemma {:induction false} BucketHitsAppend(tris: seq<string>, t: string, dims: nat, hash: string -> int, b: nat)
    requires dims > 0
    ensures BucketHits(tris + [t], dims, hash, b)
      == BucketHits(tris, dims, hash, b) + (if Bucket(hash(t), dims) == b then 1 else 0)
  {
    if tris != [] {
      assert (tris + [t])[1..] == tris[1..] + [t];
      BucketHitsAppend(tris[1..], t, dims, hash, b);
    }
  }

  /** Each bucket holds the number of trigrams that hash into it. */
  lemma {:induction false} CountsSpec(tris: seq<string>, dims: nat, hash: string -> int)
    requires dims > 0
    ensures forall b :: 0 <= b < dims ==> Counts(tris, dims, hash)[b] == BucketHits(tris, dims, hash, b) as real
  {
    if tris != [] {
      var init := tris[..|tris| - 1];
      var t := tris[|tris| - 1];
      CountsSpec(init, dims, hash);
      assert tris == init + [t];
      forall b | 0 <= b < dims ensures Counts(tris, dims, hash)[b] == BucketHits(tris, dims, hash, b) as real {
        BucketHitsAppend(init, t, dims, hash, b);
      }
    }
  }

  /** Every trigram lands in exactly one bucket: the counts sum to the number of trigrams. */
  lemma {:induction false} CountsSum(tris: seq<string>, dims: nat, hash: string -> int)
    requires dims > 0
    ensures Sum(Counts(tris, dims, hash)) == |tris| as real
    ensures forall b :: 0 <= b < dims ==> Counts(tris, dims, hash)[b] >= 0.0
  {
    if tris == [] {
      SumConstant(Zeros(dims), 0.0);
    } else {
      var init := tris[..|tris| - 1];
      CountsSum(init, dims, hash);
      SumPointAdd(Counts(init, dims, hash), Bucket(hash(tris[|tris| - 1]), dims), 1.0);
    }
  }

  function Mul(a: real, b: real): real { a * b }

  function Square(x: real): real { Mul(x, x) }

  lemma {:induction false} MulPositive(a: real, b: real)
    requires a > 0.0 && b > 0.0
    ensures Mul(a, b) > 0.0
  {
  }

  lemma {:induction false} MulNonNegative(a: real, b: real)
    requires a >= 0.0 && b >= 0.0
    ensures Mul(a, b) >= 0.0
  {
  }

  lemma {:induction false} MulNegate(a: real)
    ensures Mul(-a, -a) == Mul(a, a)
  {
  }

  lemma {:induction false} MulAtLeastOne(c: real)
    requires c >= 1.0
    ensures Mul(c, c) >= 1.0
  {
    assert c * c >= 1.0 * c;
  }

  lemma {:induction false} MulDiv(a: real, n: real)
    requires n != 0.0
    ensures Mul(a / n, n) == a
  {
  }

  lemma {:induction false} MulRegroup(a: real, b: real, c: real, d: real)
    ensures Mul(Mul(a, b), Mul(c, d)) == Mul(Mul(a, c), Mul(b, d))
  {
  }

  lemma {:induction false} DivUnique(a: real, b: real, s: real)
    requires s != 0.0 && Mul(a, s) == b
    ensures a == b / s
  {
  }

  /** A non-zero number has a positive square. */
  lemma {:induction false} SquarePositive(n: real)
    requires n != 0.0
    ensures Square(n) > 0.0
  {
    if n > 0.0 {
      MulPositive(n, n);
    } else {
      MulPositive(-n, -n);
      MulNegate(n);
    }
  }

  function Squares(v: seq<real>): (s: seq<real>)
    ensures |s| == |v|
  {
    seq(|v|, i requires 0 <= i < |v| => Square(v[i]))
  }

  /** The squared L2 norm. */
  function SumSquares(v: seq<real>): real
  {
    Sum(Squares(v))
  }

  /** `v / n` when the norm `n = sqrt(sum of squares)` is positive, `v` unchanged otherwise. */
  function Normalize(v: seq<real>, sqrt: real -> real): (r: seq<real>)
    ensures |r| == |v|
  {
    var n := sqrt(SumSquares(v));
    if n > 0.0 then seq(|v|, i requires 0 <= i < |v| => v[i] / n) else v
  }

  /** `_embed(text, dims)`. */
  function Embedding(text: string, dims: nat, hash: string -> int, sqrt: real -> real): (v: seq<real>)
    requires dims > 0
    ensures |v| == dims
  {
    Normalize(Counts(CharTrigrams(text), dims, hash), sqrt)
  }

  /** The empty text embeds as the zero vector, whatever the hash and the norm. */
  lemma {:induction false} EmbeddingOfEmpty(dims: nat, hash: string -> int, sqrt: real -> real)
    requires dims > 0
    ensures forall i :: 0 <= i < dims ==> Embedding("", dims, hash, sqrt)[i] == 0.0
  {
    CharTrigramsSpec("");
    assert CharTrigrams("") == [];
    var c := Counts([], dims, hash);
    var n := sqrt(SumSquares(c));
    forall i | 0 <= i < dims ensures Embedding("", dims, hash, sqrt)[i] == 0.0 {
      if n > 0.0 {
        assert Embedding("", dims, hash, sqrt)[i] == c[i] / n;
      }
    }
  }

  lemma {:induction false} SquareDiv(x: real, n: real)
    requires n != 0.0
    ensures Square(n) > 0.0
    ensures Square(x / n) == Square(x) / Square(n)
  {
    var q := x / n;
    SquarePositive(n);
    MulDiv(x, n);
    MulRegroup(q, q, n, n);
    DivUnique(Square(q), Square(x), Square(n));
  }

  lemma {:induction false} SquaresNonNegative(v: seq<real>)
    ensures forall i :: 0 <= i < |v| ==> Squares(v)[i] >= 0.0
  {
    forall i | 0 <= i < |v| ensures Squares(v)[i] >= 0.0 {
      if v[i] < 0.0 {
        MulNonNegative(-v[i], -v[i]);
        MulNegate(v[i]);
      } else {
        MulNonNegative(v[i], v[i]);
      }
    }
  }

  /** A non-empty text has a bucket with a positive count, so a positive squared norm. */
  lemma {:induction false} CountsSquaresPositive(tris: seq<string>, dims: nat, hash: string -> int)
    requires dims > 0 && tris != []
    ensures SumSquares(Counts(tris, dims, hash)) > 0.0
  {
    var c := Counts(tris, dims, hash);
    var b0 := Bucket(hash(tris[0]), dims);
    CountsSpec(tris, dims, hash);
    assert c[b0] >= 1.0;
    SquaresNonNegative(c);
    SumAtLeastElement(Squares(c), b0);
    MulAtLeastOne(c[b0]);
  }

  lemma {:induction false} PositiveRoot(n: real, x: real)
    requires n >= 0.0 && Square(n) == x && x > 0.0
    ensures n > 0.0
  {
    assert Square(0.0) == 0.0;
  }

  /** Dividing by a true norm gives a unit vector. */
  lemma {:induction false} NormalizeUnit(v: seq<real>, sqrt: real -> real)
    requires SumSquares(v) > 0.0
    requires forall x :: x >= 0.0 ==> sqrt(x) >= 0.0 && Square(sqrt(x)) == x
    ensures sqrt(SumSquares(v)) > 0.0
    ensures SumSquares(Normalize(v, sqrt)) == 1.0
  {
    var x := SumSquares(v);
    var n := sqrt(x);
    PositiveRoot(n, x);
    var e := Normalize(v, sqrt);
    forall i | 0 <= i < |v| ensures Squares(e)[i] == Squares(v)[i] / Square(n) {
      assert e[i] == v[i] / n;
      SquareDiv(v[i], n);
    }
    SquareDiv(0.0, n);
    SumScaled(Squares(v), Squares(e), Square(n));
    assert Square(n) == x;
    DivSelf(x);
  }

  /**
   * With a true square root, the embedding of a non-empty text is its bucket counts
   * divided by their norm, and has unit length.
   */
  lemma {:induction false} EmbeddingUnitNorm(text: string, dims: nat, hash: string -> int, sqrt: real -> real)
    requires dims > 0 && text != ""
    requires forall x :: x >= 0.0 ==> sqrt(x) >= 0.0 && Square(sqrt(x)) == x
    ensures var c := Counts(CharTrigrams(text), dims, hash);
      && sqrt(SumSquares(c)) > 0.0
      && (forall i :: 0 <= i < dims ==> Embedding(text, dims, hash, sqrt)[i] == c[i] / sqrt(SumSquares(c)))
      && SumSquares(Embedding(text, dims, hash, sqrt)) == 1.0
  {
    CharTrigramsSpec(text);
    var c := Counts(CharTrigrams(text), dims, hash);
    CountsSquaresPositive(CharTrigrams(text), dims, hash);
    NormalizeUnit(c, sqrt);
  }

  /** `_embed`: the counting loop over an array, then the in-place division by the norm. */
  method Embed(text: string, dims: nat, hash: string -> int, sqrt: real -> real) returns (v: array<real>)
    requires dims > 0
    ensures fresh(v) && v[..] == Embedding(text, dims, hash, sqrt)
  {
    v := new real[dims](_ => 0.0);
    var tris := CharTrigrams(text);
    assert v[..] == Counts(tris[..0], dims, hash);
    for k := 0 to |tris|
      invariant v[..] == Counts(tris[..k], dims, hash)
    {
      CountsStep(tris, k, dims, hash);
      var h := (hash(tris[k]) % dims + dims) % dims;
      v[h] := v[h] + 1.0;
    }
    assert tris[..|tris|] == tris;
    ghost var c := v[..];
    var n := sqrt(SumSquares(v[..]));
    if n > 0.0 {
      for i := 0 to dims
        invariant forall j :: 0 <= j < i ==> v[j] == c[j] / n
        invariant forall j :: i <= j < dims ==> v[j] == c[j]
      {
        v[i] := v[i] / n;
      }
      assert v[..] == Normalize(c, sqrt);
    }
  }

  lemma {:induction false} CountsStep(tris: seq<string>, k: nat, dims: nat, hash: string -> int)
    requires dims > 0 && k < |tris|
    ensures var h := (hash(tris[k]) % dims + dims) % dims;
      var c := Counts(tris[..k], dims, hash);
      Counts(tris[..k + 1], dims, hash) == c[h := c[h] + 1.0]
  {
    assert tris[..k + 1][..k] == tris[..k];
  }

  /** `build_vecs`: one `(id, embedding)` per row of `rows.jsonl`, in file order. */
  method BuildVecs(rows: seq<Bm25Index.Row>, dims: nat, hash: string -> int, sqrt: real -> real)
    returns (ids: seq<int>, vecs: seq<seq<real>>)
    requires dims > 0
    ensures |ids| == |rows| && |vecs| == |rows|
    ensures forall k :: 0 <= k < |rows| ==> ids[k] == rows[k].msg && vecs[k] == Embedding(rows[k].text, dims, hash, sqrt)
  {
    ids, vecs := [], [];
    for k := 0 to |rows|
      invariant |ids| == k && |vecs| == k
      invariant forall j :: 0 <= j < k ==> ids[j] == rows[j].msg && vecs[j] == Embedding(rows[j].text, dims, hash, sqrt)
    {
      var v := Embed(rows[k].text, dims, hash, sqrt);
      ids := ids + [rows[k].msg];
      vecs := vecs + [v[..]];
    }
  }

  // ---------------------------------------------------------------------------------
  // Dense search

  /** `mat @ qv`. */
  function Similarities(mat: seq<seq<real>>, qv: seq<real>): (sims: seq<real>)
    requires forall j :: 0 <= j < |mat| ==> |mat[j]| == |qv|
    ensures |sims| == |mat|
  {
    seq(|mat|, j requires 0 <= j < |mat| => Dot(mat[j], qv))
  }

  function SimAt(sims: seq<real>, j: int): real
  {
    if 0 <= j < |sims| then sims[j] else 0.0
  }

  /** Sorting `-sims` ascending: a higher similarity may precede a lower one. */
  function BySim(sims: seq<real>): (int, int) -> bool
  {
    (a: int, b: int) => SimAt(sims, a) >= SimAt(sims, b)
  }

  function Range(n: nat): (r: seq<int>)
    ensures |r| == n
  {
    seq(n, i requires 0 <= i < n => i)
  }

  /** `np.argsort(-sims)[:topk]`. */
  function TopRows(sims: seq<real>, topk: int): seq<int>
  {
    PyTake(StableSort.Sort(Range(|sims|), BySim(sims)), topk)
  }

  /**
   * `argsort(-sims)[:topk]` lists `min(topk, n)` distinct row indices, most similar first,
   * and no row left out is more similar than a kept one.
   */
  lemma {:induction false} TopRowsSpec(sims: seq<real>, topk: int)
    ensures var top := TopRows(sims, topk);
      && (topk >= 0 ==> |top| == Min(topk, |sims|))
      && Distinct(top)
      && (forall k :: 0 <= k < |top| ==> 0 <= top[k] < |sims|)
      && (forall i, j :: 0 <= i < j < |top| ==> sims[top[i]] >= sims[top[j]])
      && (forall r :: 0 <= r < |sims| && r !in top ==> forall k :: 0 <= k < |top| ==> sims[top[k]] >= sims[r])
  {
    var le := BySim(sims);
    var all := Range(|sims|);
    var top := TopRows(sims, topk);
    assert Distinct(all);
    BySimTotal(sims);
    StableSort.TopKFacts(all, le, topk);
    forall k | 0 <= k < |top| ensures 0 <= top[k] < |sims| {
      assert top[k] in all;
    }
    forall i, j | 0 <= i < j < |top| ensures sims[top[i]] >= sims[top[j]] {
      assert le(top[i], top[j]);
    }
    forall r, k | 0 <= r < |sims| && r !in top && 0 <= k < |top| ensures sims[top[k]] >= sims[r] {
      assert all[r] == r;
      assert le(top[k], r);
    }
  }

  lemma {:induction false} BySimTotal(sims: seq<real>)
    ensures StableSort.TotalPreorder(BySim(sims))
  {
  }

  /** The record for stored row `j`. */
  function DenseRecord(ids: seq<int>, sims: seq<real>, meta: map<int, MetaEntry>, j: int): Hit
    requires 0 <= j < |ids| && |ids| == |sims|
  {
    var m := MetaOf(meta, ids[j]);
    Hit(ids[j], sims[j], m.convId, m.title, m.role, m.ts, OrElse(m.snippet, m.text))
  }

  /** The stored matrix: one row of width `dims` per id. */
  predicate Stored(ids: seq<int>, mat: seq<seq<real>>, dims: nat)
  {
    dims > 0 && |ids| == |mat| && forall j :: 0 <= j < |mat| ==> |mat[j]| == dims
  }

  /** `dense_search`'s result. */
  function DenseResult(ids: seq<int>, mat: seq<seq<real>>, dims: nat, query: string, hash: string -> int,
                       sqrt: real -> real, meta: map<int, MetaEntry>, topk: int): (r: seq<Hit>)
    requires Stored(ids, mat, dims)
  {
    var sims := Similarities(mat, Embedding(query, dims, hash, sqrt));
    var top := TopRows(sims, topk);
    TopRowsSpec(sims, topk);
    DenseRecords(ids, sims, meta, top)
  }

  /** The records for the ranked rows `top`, in order. */
  function DenseRecords(ids: seq<int>, sims: seq<real>, meta: map<int, MetaEntry>, top: seq<nat>): (r: seq<Hit>)
    requires |ids| == |sims| && forall k :: 0 <= k < |top| ==> top[k] < |sims|
  {
    seq(|top|, k requires 0 <= k < |top| => DenseRecord(ids, sims, meta, top[k]))
  }

  /**
   * `dense_search` returns at most `topk` records, most similar first; each is a stored
   * row's id with its similarity and that id's metadata, the snippet falling back to the
   * text; no stored row left out is more similar than a returned one.
   */
  lemma {:induction false} DenseRanked(ids: seq<int>, mat: seq<seq<real>>, dims: nat, query: string, hash: string -> int,
                    sqrt: real -> real, meta: map<int, MetaEntry>, topk: int)
    requires Stored(ids, mat, dims)
    ensures var r := DenseResult(ids, mat, dims, query, hash, sqrt, meta, topk);
      var sims := Similarities(mat, Embedding(query, dims, hash, sqrt));
      var top := TopRows(sims, topk);
      && (topk >= 0 ==> |r| == Min(topk, |mat|))
      && (forall i, j :: 0 <= i < j < |r| ==> r[i].score >= r[j].score)
      && (forall k :: 0 <= k < |r| ==>
            && 0 <= top[k] < |ids| && r[k].msg == ids[top[k]] && r[k].score == sims[top[k]]
            && var m := MetaOf(meta, r[k].msg);
               r[k] == Hit(r[k].msg, r[k].score, m.convId, m.title, m.role, m.ts, OrElse(m.snippet, m.text)))
      && (forall j :: 0 <= j < |mat| && j !in top ==> forall k :: 0 <= k < |r| ==> r[k].score >= sims[j])
  {
    var sims := Similarities(mat, Embedding(query, dims, hash, sqrt));
    TopRowsSpec(sims, topk);
  }

  /** `dense_search`: embed the query, rank the stored rows, then the record loop. */
  method DenseSearch(ids: seq<int>, mat: seq<seq<real>>, dims: nat, query: string, hash: string -> int,
                     sqrt: real -> real, meta: map<int, MetaEntry>, topk: int) returns (out: seq<Hit>)
    requires Stored(ids, mat, dims)
    ensures out == DenseResult(ids, mat, dims, query, hash, sqrt, meta, topk)
  {
    var qv := Embed(query, dims, hash, sqrt);
    var sims := Similarities(mat, qv[..]);
    var top := TopRows(sims, topk);
    TopRowsSpec(sims, topk);
    out := DenseRecordLoop(ids, sims, meta, top);
  }

  /** The record loop of `dense_search`: one record per ranked row, in rank order. */
  method DenseRecordLoop(ids: seq<int>, sims: seq<real>, meta: map<int, MetaEntry>, top: seq<nat>) returns (out: seq<Hit>)
    requires |ids| == |sims| && forall k :: 0 <= k < |top| ==> top[k] < |sims|
    ensures out == DenseRecords(ids, sims, meta, top)
  {
    out := [];
    for k := 0 to |top|
      invariant |out| == k
      invariant forall i :: 0 <= i < k ==> out[i] == DenseRecord(ids, sims, meta, top[i])
    {
      var j := top[k];
      var m := MetaOf(meta, ids[j]);
      out := out + [Hit(ids[j], sims[j], m.convId, m.title, m.role, m.ts, OrElse(m.snippet, m.text))];
    }
  }
}
