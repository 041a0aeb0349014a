/**
 * `hybrid_search` (`rerank.py`): lexical and dense first-stage recall, the union of their
 * message ids as candidates, six per-candidate signals (z-normalised lexical, dense and
 * global-PageRank scores, a personalised PageRank over the candidates, an authority prior
 * and freshness), their weighted fusion, and a stable descending ranking cut to `topk`.
 *
 * What the function reads from disk or the clock is a parameter here: the two recall lists
 * (`None` for a dense search that raised), the global PageRank map, the edge list,
 * `_freshness(., now)` and the square root `numpy.std` takes.
 */
module Rerank {
  import opened Common
  import opened Strings
  import StableSort
  import Ppr

  const W_BM25: real := 1.00
  const W_SEM: real := 0.55
  const W_AUTH: real := 0.20
  const W_FRSH: real := 0.10
  const W_PRG: real := 0.20
  const W_PPR: real := 0.25

  /** `_mini_ppr`'s defaults, which `hybrid_search` keeps. */
  const Alpha: real := 0.2
  const Iters: int := 20

  /** Everything `hybrid_search` gets from outside its own computation. */
  datatype Inputs = Inputs(
    bm: seq<Hit>,                 // bm25_search(ddir, q, topk=400)
    dense: Option<seq<Hit>>,      // dense_search(ddir, q, topk=400), None when it raised
    prGlobal: map<int, real>,     // _load_pr_global(ddir)
    edges: seq<Ppr.Link>,         // _load_edges(ddir)
    freshness: string -> real,    // _freshness(., now)
    sqrt: real -> real)           // the square root inside arr.std()

  /** The per-candidate values the fusion combines, and the raw ones `explain` reports. */
  datatype Signals = Signals(
    bmMap: map<int, real>,
    cosMap: map<int, real>,
    pprRaw: map<int, real>,
    prior: map<int, real>,
    freshness: map<int, real>,
    bmZ: map<int, real>,
    cosZ: map<int, real>,
    prgZ: map<int, real>,
    pprZ: map<int, real>)

  /** The five raw signals an explained record carries. */
  datatype Explain = Explain(bm25: real, cos: real, prGlobal: real, ppr: real, freshness: real)

  /** One output record: the seven common keys, and the explain keys only when asked for. */
  datatype Ranked = Ranked(hit: Hit, explain: Option<Explain>)

  /** `m.get(i, 0.0)`. */
  function Get(m: map<int, real>, i: int): real
  {
    if i in m then m[i] else 0.0
  }

  function DenseHits(dense: Option<seq<Hit>>): seq<Hit>
  {
    if dense.Some? then dense.value else []
  }

  // ---------------------------------------------------------------------------------
  // First-stage recall: score maps, the metadata map and the candidates

  /** Some record of `hits` is about message `i`. */
  predicate Listed(hits: seq<Hit>, i: int)
  {
    exists k :: 0 <= k < |hits| && hits[k].msg == i
  }

  /** `h` is a record of `hits` and no later record has its id. */
  predicate LastOf(hits: seq<Hit>, h: Hit)
  {
    exists k :: 0 <= k < |hits| && hits[k] == h && forall j :: k < j < |hits| ==> hits[j].msg != h.msg
  }

  /** `h` is a record of `hits` and no earlier record has its id. */
  predicate FirstOf(hits: seq<Hit>, h: Hit)
  {
    exists k :: 0 <= k < |hits| && hits[k] == h && forall j :: 0 <= j < k ==> hits[j].msg != h.msg
  }

  /** `{int(r["msg"]): r for r in hits}`. */
  function LastRecords(hits: seq<Hit>): (m: map<int, Hit>)
    ensures forall i :: i in m ==> m[i].msg == i
  {
    if hits == [] then map[]
    else LastRecords(hits[..|hits| - 1])[hits[|hits| - 1].msg := hits[|hits| - 1]]
  }

  /** `{int(r["msg"]): float(r["score"]) for r in hits}`. */
  function ScoreMap(hits: seq<Hit>): map<int, real>
  {
    var recs := LastRecords(hits);
    map i | i in recs :: recs[i].score
  }

  /** `for r in hits: m.setdefault(int(r["msg"]), r)`. */
  function SetDefault(m: map<int, Hit>, hits: seq<Hit>): map<int, Hit>
  {
    if hits == [] then m
    else
      var r := SetDefault(m, hits[..|hits| - 1]);
      var h := hits[|hits| - 1];
      if h.msg in r then r else r[h.msg := h]
  }

  /** `id_meta` once the dense records have been merged in. */
  function IdMeta(inp: Inputs): map<int, Hit>
  {
    SetDefault(LastRecords(inp.bm), DenseHits(inp.dense))
  }

  /** `{*bm_map.keys(), *cos_map.keys()}`. */
  function CandidateSet(inp: Inputs): set<int>
  {
    ScoreMap(inp.bm).Keys + ScoreMap(DenseHits(inp.dense)).Keys
  }

  /** Each id of `hits` maps to the last record with that id. */
  lemma {:induction false} LastRecordsSpec(hits: seq<Hit>)
    ensures forall i :: i in LastRecords(hits) <==> Listed(hits, i)
    ensures forall i :: i in LastRecords(hits) ==> LastOf(hits, LastRecords(hits)[i])
  {
    if hits != [] {
      var init := hits[..|hits| - 1];
      var h := hits[|hits| - 1];
      LastRecordsSpec(init);
      ListedSnoc(hits);
      forall i | i in LastRecords(hits) ensures LastOf(hits, LastRecords(hits)[i]) {
        if i == h.msg {
          assert hits[|hits| - 1] == LastRecords(hits)[i];
        } else {
          LastOfSnoc(hits, LastRecords(init)[i]);
        }
      }
    }
  }

  /**
   * `setdefault` keeps what `m` had and adds, for each new id, the first record with it.
   */
  lemma {:induction false} SetDefaultSpec(m: map<int, Hit>, hits: seq<Hit>)
    ensures forall i :: i in SetDefault(m, hits) <==> i in m || Listed(hits, i)
    ensures forall i :: i in m ==> SetDefault(m, hits)[i] == m[i]
    ensures forall i :: i in SetDefault(m, hits) && i !in m ==>
      SetDefault(m, hits)[i].msg == i && FirstOf(hits, SetDefault(m, hits)[i])
  {
    if hits != [] {
      var init := hits[..|hits| - 1];
      var h := hits[|hits| - 1];
      var r0 := SetDefault(m, init);
      SetDefaultSpec(m, init);
      ListedSnoc(hits);
      forall i | i in SetDefault(m, hits) && i !in m
        ensures SetDefault(m, hits)[i].msg == i && FirstOf(hits, SetDefault(m, hits)[i])
      {
        if i in r0 {
          FirstOfSnoc(hits, r0[i]);
        } else {
          FirstOfNew(hits);
        }
      }
    }
  }

  lemma {:induction false} ListedSnoc(hits: seq<Hit>)
    requires hits != []
    ensures forall i :: Listed(hits, i) <==> Listed(hits[..|hits| - 1], i) || i == hits[|hits| - 1].msg
  {
    var init := hits[..|hits| - 1];
    forall i | Listed(hits, i) && i != hits[|hits| - 1].msg ensures Listed(init, i) {
      var k :| 0 <= k < |hits| && hits[k].msg == i;
      assert init[k].msg == i;
    }
    forall i | Listed(init, i) ensures Listed(hits, i) {
      var k :| 0 <= k < |init| && init[k].msg == i;
      assert hits[k].msg == i;
    }
  }

  lemma {:induction false} LastOfSnoc(hits: seq<Hit>, r: Hit)
    requires hits != [] && LastOf(hits[..|hits| - 1], r) && r.msg != hits[|hits| - 1].msg
    ensures LastOf(hits, r)
  {
    var init := hits[..|hits| - 1];
    var k :| 0 <= k < |init| && init[k] == r && forall j :: k < j < |init| ==> init[j].msg != r.msg;
    assert hits[k] == r;
    forall j | k < j < |hits| ensures hits[j].msg != r.msg {
      if j < |init| {
        assert hits[j] == init[j];
      }
    }
  }

  lemma {:induction false} FirstOfSnoc(hits: seq<Hit>, r: Hit)
    requires hits != [] && FirstOf(hits[..|hits| - 1], r)
    ensures FirstOf(hits, r)
  {
    var init := hits[..|hits| - 1];
    var k :| 0 <= k < |init| && init[k] == r && forall j :: 0 <= j < k ==> init[j].msg != r.msg;
    assert hits[k] == r;
    forall j | 0 <= j < k ensures hits[j].msg != r.msg {
      assert hits[j] == init[j];
    }
  }

  lemma {:induction false} FirstOfNew(hits: seq<Hit>)
    requires hits != [] && !Listed(hits[..|hits| - 1], hits[|hits| - 1].msg)
    ensures FirstOf(hits, hits[|hits| - 1])
  {
    var init := hits[..|hits| - 1];
    var h := hits[|hits| - 1];
    forall j | 0 <= j < |hits| - 1 ensures hits[j].msg != h.msg {
      assert init[j] == hits[j];
    }
  }

  /**
   * `id_meta` has an entry for exactly the listed ids: the last lexical record of the id
   * when there is one, else its first dense record.
   */
  lemma {:induction false} IdMetaSources(inp: Inputs)
    ensures var meta := IdMeta(inp);
      && (forall i :: i in meta <==> Listed(inp.bm, i) || Listed(DenseHits(inp.dense), i))
      && (forall i :: i in meta ==> meta[i].msg == i)
      && (forall i :: i in meta && Listed(inp.bm, i) ==> LastOf(inp.bm, meta[i]))
      && (forall i :: i in meta && !Listed(inp.bm, i) ==> FirstOf(DenseHits(inp.dense), meta[i]))
  {
    LastRecordsSpec(inp.bm);
    SetDefaultSpec(LastRecords(inp.bm), DenseHits(inp.dense));
  }

  /**
   * The candidates are the ids either recall stage returned, so there are none (and
   * `hybrid_search` returns `[]`) exactly when both lists are empty or the dense search
   * raised with no lexical hits; every candidate has an `id_meta` entry.
   */
  lemma {:induction false} CandidateSetSpec(inp: Inputs)
    ensures forall i :: i in CandidateSet(inp) <==> Listed(inp.bm, i) || Listed(DenseHits(inp.dense), i)
    ensures CandidateSet(inp) == {} <==> inp.bm == [] && DenseHits(inp.dense) == []
    ensures forall i :: i in CandidateSet(inp) <==> i in IdMeta(inp)
  {
    LastRecordsSpec(inp.bm);
    LastRecordsSpec(DenseHits(inp.dense));
    IdMetaSources(inp);
    if inp.bm != [] {
      assert Listed(inp.bm, inp.bm[0].msg);
    }
    if DenseHits(inp.dense) != [] {
      assert Listed(DenseHits(inp.dense), DenseHits(inp.dense)[0].msg);
    }
  }

  // ---------------------------------------------------------------------------------
  // The query-biased seed

  function Product(x: real, y: real): real { x * y }

  /** `(b ** beta) * ((c if c > 0 else b) ** gamma)` with beta = gamma = 1 on the clamped scores. */
  function Seed(bmScore: real, cosScore: real): real
  {
    var b := MaxR(0.0, bmScore);
    var c := MaxR(0.0, cosScore);
    Product(b, if c > 0.0 then c else b)
  }

  lemma {:induction false} ProductSign(x: real, y: real)
    requires x >= 0.0 && y >= 0.0
    ensures Product(x, y) >= 0.0
    ensures Product(x, y) > 0.0 <==> x > 0.0 && y > 0.0
  {
    if x > 0.0 && y > 0.0 {
      assert x * y > 0.0;
    }
  }

  /**
   * A seed is never negative, and it is positive exactly when the lexical score is: a
   * candidate only the dense stage found gets no seed mass. Without a positive cosine the
   * seed is the square of the clamped lexical score, with both it is their product.
   */
  lemma {:induction false} SeedSpec(bmScore: real, cosScore: real)
    ensures Seed(bmScore, cosScore) >= 0.0
    ensures Seed(bmScore, cosScore) > 0.0 <==> bmScore > 0.0
    ensures cosScore <= 0.0 ==> Seed(bmScore, cosScore) == Product(MaxR(0.0, bmScore), MaxR(0.0, bmScore))
    ensures bmScore > 0.0 && cosScore > 0.0 ==> Seed(bmScore, cosScore) == Product(bmScore, cosScore)
  {
    var b := MaxR(0.0, bmScore);
    var c := MaxR(0.0, cosScore);
    ProductSign(b, if c > 0.0 then c else b);
  }

  function SeedMap(cands: seq<int>, bmMap: map<int, real>, cosMap: map<int, real>): map<int, real>
  {
    map i | i in cands :: Seed(Get(bmMap, i), Get(cosMap, i))
  }

  /** `ppr_raw`: `_mini_ppr` when there are edges, zeros otherwise. */
  function PprRaw(cands: seq<int>, edges: seq<Ppr.Link>, seeds: map<int, real>): map<int, real>
  {
    if edges != [] then Ppr.MiniPprResult(cands, edges, seeds, Alpha, Iters) else Ppr.ZeroScores(cands)
  }

  // ---------------------------------------------------------------------------------
  // The authority prior and freshness

  /**
   * `0.30 if role == "assistant"`, `+ 0.40 if has_code`, `+ 0.30 * min(len(snippet), 800) / 800`.
   */
  function Prior(role: string, hasCode: bool, snippet: string): real
  {
    (if Lower(role) == "assistant" then 0.30 else 0.0)
      + (if hasCode then 0.40 else 0.0)
      + 0.30 * (Min(|snippet|, 800) as real) / 800.0
  }

  /** The prior lies in [0, 1] and reaches 1 only for a code-bearing assistant message of 800+ characters. */
  lemma {:induction false} PriorBounds(role: string, hasCode: bool, snippet: string)
    ensures 0.0 <= Prior(role, hasCode, snippet) <= 1.0
    ensures Prior(role, hasCode, snippet) == 1.0 <==> Lower(role) == "assistant" && hasCode && |snippet| >= 800
    ensures !hasCode ==> Prior(role, hasCode, snippet) <= 0.6
  {
    var t := Min(|snippet|, 800) as real;
    assert 0.0 <= t <= 800.0;
    assert 0.30 * t / 800.0 == t * (3.0 / 8000.0);
  }

  /** `id_meta.get(i, {})`: a record with every field absent stands for `{}`. */
  function MetaHit(idMeta: map<int, Hit>, i: int): Hit
  {
    if i in idMeta then idMeta[i] else Hit(i, 0.0, None, None, None, None, None)
  }

  /**
   * A candidate's prior. The records in `id_meta` come from `bm25_search` and
   * `dense_search`, neither of which has a `has_code` or a `text` key, so `has_code` is
   * always false and the snippet is the dense record's `snippet` (absent for lexical records).
   */
  function CandidatePrior(idMeta: map<int, Hit>, i: int): real
  {
    var h := MetaHit(idMeta, i);
    Prior(OrEmpty(h.role), false, OrEmpty(h.snippet))
  }

  /** `meta.get("ts") or ""`. */
  function CandidateTs(idMeta: map<int, Hit>, i: int): string
  {
    OrEmpty(MetaHit(idMeta, i).ts)
  }

  function PriorMap(cands: seq<int>, idMeta: map<int, Hit>): map<int, real>
  {
    Tabulate(cands, PriorOf(idMeta))
  }

  function FreshMap(cands: seq<int>, idMeta: map<int, Hit>, freshness: string -> real): map<int, real>
  {
    Tabulate(cands, FreshOf(idMeta, freshness))
  }

  function PriorOf(idMeta: map<int, Hit>): int -> real
  {
    i => CandidatePrior(idMeta, i)
  }

  function FreshOf(idMeta: map<int, Hit>, freshness: string -> real): int -> real
  {
    i => freshness(CandidateTs(idMeta, i))
  }

  /** `{i: f(i) for i in ids}`. */
  function Tabulate(ids: seq<int>, f: int -> real): map<int, real>
  {
    map i | i in ids :: f(i)
  }

  lemma {:induction false} TabulateStep(ids: seq<int>, k: nat, f: int -> real)
    requires k < |ids|
    ensures Tabulate(ids[..k + 1], f) == Tabulate(ids[..k], f)[ids[k] := f(ids[k])]
  {
    assert ids[..k + 1] == ids[..k] + [ids[k]];
  }

  // ---------------------------------------------------------------------------------
  // Z-normalisation

  /** `[scores.get(i, 0.0) for i in ids]`. */
  function Values(scores: map<int, real>, ids: seq<int>): (a: seq<real>)
    ensures |a| == |ids|
  {
    seq(|ids|, k requires 0 <= k < |ids| => Get(scores, ids[k]))
  }

  function Mean(a: seq<real>): real
    requires a != []
  {
    Sum(a) / |a| as real
  }

  function Square(x: real): real { x * x }

  /** `numpy.var`: the mean squared deviation from the mean. */
  function Variance(a: seq<real>): real
    requires a != []
  {
    var mu := Mean(a);
    Mean(seq(|a|, k requires 0 <= k < |a| => Square(a[k] - mu)))
  }

  /** The standard deviation is at least the 1e-9 cut-off, so the scores are rescaled. */
  predicate Spread(scores: map<int, real>, ids: seq<int>, sqrt: real -> real)
  {
    ids != [] && sqrt(Variance(Values(scores, ids))) >= 1e-9
  }

  function ZeroMap(ids: seq<int>): map<int, real>
  {
    map i | i in ids :: 0.0
  }

  /** `_z_norm`: `(x - mean) / (std + 1e-9)` per id, all zeros for no ids or a std below 1e-9. */
  function ZNorm(scores: map<int, real>, ids: seq<int>, sqrt: real -> real): (z: map<int, real>)
    ensures forall i :: i in z <==> i in ids
  {
    if !Spread(scores, ids, sqrt) then ZeroMap(ids)
    else
      var a := Values(scores, ids);
      var mu := Mean(a);
      var d := sqrt(Variance(a)) + 1e-9;
      map i | i in ids :: (Get(scores, i) - mu) / d
  }

  lemma {:induction false} DivMonotone(x: real, y: real, d: real)
    requires d > 0.0
    ensures x <= y ==> x / d <= y / d
    ensures x < y <==> x / d < y / d
  {
    assert y / d - x / d == (y - x) / d;
    if x < y {
      DivPositive(y - x, d);
    } else {
      DivNonNegative(x - y, d);
      assert x / d - y / d == (x - y) / d;
    }
  }

  /**
   * Z-normalisation never reverses the order of two candidates' scores, and when the scores
   * are spread it keeps strict order in both directions; otherwise every value is 0.
   */
  lemma {:induction false} ZNormOrder(scores: map<int, real>, ids: seq<int>, sqrt: real -> real, i: int, j: int)
    requires i in ids && j in ids
    ensures var z := ZNorm(scores, ids, sqrt);
      && (Get(scores, i) <= Get(scores, j) ==> z[i] <= z[j])
      && (Spread(scores, ids, sqrt) ==> (Get(scores, i) < Get(scores, j) <==> z[i] < z[j]))
      && (!Spread(scores, ids, sqrt) ==> z[i] == 0.0)
  {
    if Spread(scores, ids, sqrt) {
      var a := Values(scores, ids);
      var mu := Mean(a);
      DivMonotone(Get(scores, i) - mu, Get(scores, j) - mu, sqrt(Variance(a)) + 1e-9);
    }
  }

  /** Subtracting `c` from every element subtracts `n * c` from the sum. */
  lemma {:induction false} SumShift(a: seq<real>, b: seq<real>, c: real)
    requires |a| == |b|
    requires forall k :: 0 <= k < |a| ==> b[k] == a[k] - c
    ensures Sum(b) == Sum(a) - |a| as real * c
  {
    if a != [] {
      SumShift(a[..|a| - 1], b[..|b| - 1], c);
    }
  }

  function Deviations(a: seq<real>, mu: real): (d: seq<real>)
    ensures |d| == |a|
  {
    seq(|a|, k requires 0 <= k < |a| => a[k] - mu)
  }

  /** Deviations from the mean sum to 0. */
  lemma {:induction false} DeviationsSum(a: seq<real>)
    requires a != []
    ensures Sum(Deviations(a, Mean(a))) == 0.0
  {
    SumShift(a, Deviations(a, Mean(a)), Mean(a));
    var n := |a| as real;
    assert n * (Sum(a) / n) == Sum(a);
  }

  /** The z-scores of the candidates sum to 0. */
  lemma {:induction false} ZNormCentered(scores: map<int, real>, ids: seq<int>, sqrt: real -> real)
    ensures Sum(Values(ZNorm(scores, ids, sqrt), ids)) == 0.0
  {
    var z := ZNorm(scores, ids, sqrt);
    var zs := Values(z, ids);
    if !Spread(scores, ids, sqrt) {
      SumConstant(zs, 0.0);
    } else {
      var a := Values(scores, ids);
      var mu := Mean(a);
      var d := sqrt(Variance(a)) + 1e-9;
      var dev := Deviations(a, mu);
      DeviationsSum(a);
      forall k | 0 <= k < |zs| ensures zs[k] == dev[k] / d {
        assert ids[k] in ids;
      }
      SumScaled(dev, zs, d);
    }
  }

  /** Equal scores for all ids carry no signal: their z-scores are all 0 (given sqrt(0) = 0). */
  lemma {:induction false} ZNormConstant(scores: map<int, real>, ids: seq<int>, sqrt: real -> real, c: real)
    requires sqrt(0.0) == 0.0
    requires forall i :: i in ids ==> Get(scores, i) == c
    ensures forall i :: i in ids ==> ZNorm(scores, ids, sqrt)[i] == 0.0
  {
    if ids != [] {
      var a := Values(scores, ids);
      forall k | 0 <= k < |a| ensures a[k] == c {
        assert ids[k] in ids;
      }
      ConstantVariance(a, c);
    }
  }

  /** A constant sequence has that constant as its mean and no variance. */
  lemma {:induction false} ConstantVariance(a: seq<real>, c: real)
    requires a != [] && forall k :: 0 <= k < |a| ==> a[k] == c
    ensures Mean(a) == c && Variance(a) == 0.0
  {
    SumConstant(a, c);
    MulDivCancel(|a| as real, c);
    var sq := seq(|a|, k requires 0 <= k < |a| => Square(a[k] - Mean(a)));
    SumConstant(sq, 0.0);
  }

  // ---------------------------------------------------------------------------------
  // The signals, their fusion and the ranking

  /** Every signal `hybrid_search` computes for the candidates `cands`. */
  function SignalsOf(cands: seq<int>, inp: Inputs): Signals
  {
    var bmMap := ScoreMap(inp.bm);
    var cosMap := ScoreMap(DenseHits(inp.dense));
    var idMeta := IdMeta(inp);
    var pprRaw := PprRaw(cands, inp.edges, SeedMap(cands, bmMap, cosMap));
    Signals(
      bmMap, cosMap, pprRaw,
      PriorMap(cands, idMeta),
      FreshMap(cands, idMeta, inp.freshness),
      ZNorm(bmMap, cands, inp.sqrt),
      if cosMap != map[] then ZNorm(cosMap, cands, inp.sqrt) else ZeroMap(cands),
      if inp.prGlobal != map[] then ZNorm(inp.prGlobal, cands, inp.sqrt) else ZeroMap(cands),
      if pprRaw != map[] then ZNorm(pprRaw, cands, inp.sqrt) else ZeroMap(cands))
  }

  /** The weighted sum of one candidate's signals. */
  function Fuse(sig: Signals, i: int): real
  {
    W_BM25 * Get(sig.bmZ, i) + W_SEM * Get(sig.cosZ, i) + W_AUTH * Get(sig.prior, i)
      + W_FRSH * Get(sig.freshness, i) + W_PRG * Get(sig.prgZ, i) + W_PPR * Get(sig.pprZ, i)
  }

  function FusedMap(cands: seq<int>, sig: Signals): map<int, real>
  {
    map i | i in cands :: Fuse(sig, i)
  }

  /** `key=lambda x: fused[x], reverse=True`: a higher fused score may precede a lower one. */
  function ByFused(fused: map<int, real>): (int, int) -> bool
  {
    (x: int, y: int) => Get(fused, x) >= Get(fused, y)
  }

  /** `sorted(cand_ids, key=..., reverse=True)[:topk]`. */
  function RankedIds(cands: seq<int>, fused: map<int, real>, topk: int): seq<int>
  {
    PyTake(StableSort.Sort(cands, ByFused(fused)), topk)
  }

  /**
   * The record built for ranked candidate `i`. `meta.get("snippet") or meta.get("text")`:
   * no recall record has a `text` field, so an empty or missing snippet gives none.
   */
  function Record(i: int, fused: map<int, real>, sig: Signals, idMeta: map<int, Hit>, prGlobal: map<int, real>, explain: bool): Ranked
  {
    var m := MetaHit(idMeta, i);
    Ranked(
      Hit(i, Get(fused, i), m.convId, m.title, m.role, m.ts, OrElse(m.snippet, None)),
      if explain then Some(Explain(Get(sig.bmMap, i), Get(sig.cosMap, i), Get(prGlobal, i), Get(sig.pprRaw, i), Get(sig.freshness, i)))
      else None)
  }

  function Records(ranked: seq<int>, fused: map<int, real>, sig: Signals, idMeta: map<int, Hit>, prGlobal: map<int, real>, explain: bool): (out: seq<Ranked>)
    ensures |out| == |ranked|
  {
    seq(|ranked|, k requires 0 <= k < |ranked| => Record(ranked[k], fused, sig, idMeta, prGlobal, explain))
  }

  /** The ranking and records `hybrid_search` builds from the signals `sig` of the candidates `cands`. */
  function Ranking(cands: seq<int>, sig: Signals, idMeta: map<int, Hit>, prGlobal: map<int, real>, topk: int, explain: bool): seq<Ranked>
  {
    var fused := FusedMap(cands, sig);
    Records(RankedIds(cands, fused, topk), fused, sig, idMeta, prGlobal, explain)
  }

  /** What `hybrid_search` returns when the candidate set is iterated in the order `cands`. */
  function HybridResult(cands: seq<int>, inp: Inputs, topk: int, explain: bool): seq<Ranked>
  {
    if cands == [] then [] else Ranking(cands, SignalsOf(cands, inp), IdMeta(inp), inp.prGlobal, topk, explain)
  }

  /** Some record is about candidate `x`. */
  predicate Returns(out: seq<Ranked>, x: int)
  {
    exists k :: 0 <= k < |out| && out[k].hit.msg == x
  }

  lemma {:induction false} ByFusedTotal(fused: map<int, real>)
    ensures StableSort.TotalPreorder(ByFused(fused))
  {
  }

  /**
   * The ranking is a top-k of the candidates by fused score: `min(topk, n)` distinct
   * candidates in non-increasing order, none scoring below a candidate left out.
   */
  lemma {:induction false} RankedIdsSpec(cands: seq<int>, fused: map<int, real>, topk: int)
    requires Distinct(cands)
    ensures var r := RankedIds(cands, fused, topk);
      && (topk >= 0 ==> |r| == Min(topk, |cands|))
      && |r| <= |cands|
      && Distinct(r)
      && (forall k :: 0 <= k < |r| ==> r[k] in cands)
      && (forall i, j :: 0 <= i < j < |r| ==> Get(fused, r[i]) >= Get(fused, r[j]))
      && (forall x, k :: x in cands && x !in r && 0 <= k < |r| ==> Get(fused, r[k]) >= Get(fused, x))
  {
    var le := ByFused(fused);
    var sorted := StableSort.Sort(cands, le);
    var r := RankedIds(cands, fused, topk);
    ByFusedTotal(fused);
    StableSort.TopK(cands, le, topk);
    StableSort.SortDistinct(cands, le);
    forall k | 0 <= k < |r| ensures r[k] in cands {
      assert r[k] == sorted[k];
      assert sorted[k] in multiset(sorted);
    }
    forall i, j | 0 <= i < j < |r| ensures r[i] != r[j] {
      assert r[i] == sorted[i] && r[j] == sorted[j];
    }
    forall x, k | x in cands && x !in r && 0 <= k < |r| ensures Get(fused, r[k]) >= Get(fused, x) {
      StableSort.TopKLeftOut(cands, le, topk, x);
    }
  }

  /**
   * The ranking step of `hybrid_search`, whatever the signals: `min(topk, n)` records,
   * best first, one per candidate, each scored with the candidate's fused score; no
   * candidate left out scores above a kept one; the explain fields are present exactly
   * when asked for.
   */
  lemma {:induction false} HybridRanked(cands: seq<int>, sig: Signals, idMeta: map<int, Hit>, prGlobal: map<int, real>, topk: int, explain: bool)
    requires Distinct(cands)
    ensures var out, fused := Ranking(cands, sig, idMeta, prGlobal, topk, explain), FusedMap(cands, sig);
      && (topk >= 0 ==> |out| == Min(topk, |cands|))
      && (forall i, j :: 0 <= i < j < |out| ==> out[i].hit.score >= out[j].hit.score && out[i].hit.msg != out[j].hit.msg)
      && (forall k :: 0 <= k < |out| ==> out[k].hit.msg in cands && out[k].hit.score == Fuse(sig, out[k].hit.msg))
      && (forall k :: 0 <= k < |out| ==> (out[k].explain.Some? <==> explain))
      && (forall x, k :: x in cands && !Returns(out, x) && 0 <= k < |out| ==> out[k].hit.score >= Fuse(sig, x))
  {
    var fused := FusedMap(cands, sig);
    var r := RankedIds(cands, fused, topk);
    var out := Ranking(cands, sig, idMeta, prGlobal, topk, explain);
    RankedIdsSpec(cands, fused, topk);
    assert forall k :: 0 <= k < |out| ==> out[k].hit.msg == r[k] && out[k].hit.score == Get(fused, r[k]);
    assert forall x :: x in cands ==> Get(fused, x) == Fuse(sig, x);
    forall x, k | x in cands && !Returns(out, x) && 0 <= k < |out| ensures out[k].hit.score >= Fuse(sig, x) {
      forall t | 0 <= t < |r| ensures r[t] != x {
        assert out[t].hit.msg == r[t];
      }
    }
  }

  /** A record copies the metadata of its candidate. */
  lemma {:induction false} RecordsMeta(ranked: seq<int>, fused: map<int, real>, sig: Signals, idMeta: map<int, Hit>,
                    prGlobal: map<int, real>, explain: bool)
    requires forall k :: 0 <= k < |ranked| ==> ranked[k] in idMeta
    ensures var out := Records(ranked, fused, sig, idMeta, prGlobal, explain);
      forall k :: 0 <= k < |out| ==>
        && out[k].hit.msg == ranked[k]
        && var m := idMeta[ranked[k]];
           out[k].hit == Hit(ranked[k], out[k].hit.score, m.convId, m.title, m.role, m.ts, OrElse(m.snippet, None))
  {
  }

  /**
   * Each record carries its candidate's metadata: that of the last lexical record with the
   * id, else of the first dense one; `snippet` is that record's non-empty snippet or `None`.
   */
  lemma {:induction false} HybridRecords(cands: seq<int>, inp: Inputs, sig: Signals, topk: int, explain: bool)
    requires Distinct(cands) && forall i :: i in cands <==> i in CandidateSet(inp)
    ensures var out := Ranking(cands, sig, IdMeta(inp), inp.prGlobal, topk, explain);
      forall k :: 0 <= k < |out| ==>
        var h := out[k].hit;
        && h.msg in IdMeta(inp)
        && var m := IdMeta(inp)[h.msg];
        && h == Hit(h.msg, h.score, m.convId, m.title, m.role, m.ts, OrElse(m.snippet, None))
        && (Listed(inp.bm, h.msg) ==> LastOf(inp.bm, m))
        && (!Listed(inp.bm, h.msg) ==> FirstOf(DenseHits(inp.dense), m))
  {
    var fused := FusedMap(cands, sig);
    var r := RankedIds(cands, fused, topk);
    var meta := IdMeta(inp);
    RankedIdsSpec(cands, fused, topk);
    CandidateSetSpec(inp);
    IdMetaSources(inp);
    RecordsMeta(r, fused, sig, meta, inp.prGlobal, explain);
  }

  /**
   * The signals' ranges: the prior stays in [0, 0.6] (`has_code` never contributes), and
   * with non-negative edge weights the raw PageRank scores are non-negative and sum to at
   * most 1 over the candidates.
   */
  lemma {:induction false} SignalBounds(cands: seq<int>, inp: Inputs)
    requires Distinct(cands)
    requires forall k :: 0 <= k < |inp.edges| ==> inp.edges[k].w >= 0.0
    ensures var sig := SignalsOf(cands, inp);
      && (forall i :: i in cands ==> 0.0 <= sig.prior[i] <= 0.6)
      && (forall i :: i in cands ==> i in sig.pprRaw && sig.pprRaw[i] >= 0.0)
      && Sum(Ppr.ScoreVector(sig.pprRaw, cands)) <= 1.0
  {
    PriorMapBounds(cands, IdMeta(inp));
    PprRawBounds(cands, inp.edges, SeedMap(cands, ScoreMap(inp.bm), ScoreMap(DenseHits(inp.dense))));
  }

  lemma {:induction false} PriorMapBounds(cands: seq<int>, idMeta: map<int, Hit>)
    ensures var prior := PriorMap(cands, idMeta); forall i :: i in cands ==> i in prior && 0.0 <= prior[i] <= 0.6
  {
    var prior := PriorMap(cands, idMeta);
    forall i | i in cands ensures i in prior && 0.0 <= prior[i] <= 0.6 {
      var h := MetaHit(idMeta, i);
      assert prior[i] == CandidatePrior(idMeta, i);
      PriorBounds(OrEmpty(h.role), false, OrEmpty(h.snippet));
    }
  }

  lemma {:induction false} PprRawBounds(cands: seq<int>, edges: seq<Ppr.Link>, seeds: map<int, real>)
    requires Distinct(cands)
    requires forall k :: 0 <= k < |edges| ==> edges[k].w >= 0.0
    ensures var raw := PprRaw(cands, edges, seeds);
      && (forall i :: i in cands ==> i in raw && raw[i] >= 0.0)
      && Sum(Ppr.ScoreVector(raw, cands)) <= 1.0
  {
    Ppr.MiniPprKeys(cands, edges, seeds, Alpha, Iters);
    if edges != [] {
      Ppr.MiniPprMass(cands, edges, seeds, Alpha, Iters);
    } else {
      Ppr.ZeroScoreVector(cands);
    }
  }

  // ---------------------------------------------------------------------------------
  // The imperative side: the loops of `hybrid_search`

  /** `list(s)`: the set's members in the (unspecified) iteration order, each once. */
  method ListSet<T>(s: set<T>) returns (r: seq<T>)
    ensures Distinct(r)
    ensures forall x :: x in r <==> x in s
  {
    r := [];
    var rest := s;
    while rest != {}
      invariant rest <= s
      invariant Distinct(r)
      invariant forall x :: x in r <==> x in s && x !in rest
      decreases |rest|
    {
      var x :| x in rest;
      r := r + [x];
      rest := rest - {x};
    }
  }

  /** The dense loop's `id_meta.setdefault(...)`. */
  method SetDefaultAll(m: map<int, Hit>, hits: seq<Hit>) returns (r: map<int, Hit>)
    ensures r == SetDefault(m, hits)
  {
    r := m;
    for k := 0 to |hits|
      invariant r == SetDefault(m, hits[..k])
    {
      assert hits[..k + 1][..k] == hits[..k];
      if hits[k].msg !in r {
        r := r[hits[k].msg := hits[k]];
      }
    }
    assert hits[..|hits|] == hits;
  }

  /** The seed loop. */
  method SeedLoop(cands: seq<int>, bmMap: map<int, real>, cosMap: map<int, real>) returns (seeds: map<int, real>)
    ensures seeds == SeedMap(cands, bmMap, cosMap)
  {
    seeds := map[];
    for k := 0 to |cands|
      invariant forall i :: i in seeds <==> i in cands[..k]
      invariant forall i :: i in seeds ==> seeds[i] == Seed(Get(bmMap, i), Get(cosMap, i))
    {
      assert cands[..k + 1] == cands[..k] + [cands[k]];
      var b := MaxR(0.0, Get(bmMap, cands[k]));
      var c := MaxR(0.0, Get(cosMap, cands[k]));
      var f := if c > 0.0 then c else b;
      var seed := b * f;
      assert seed == Product(b, f);
      seeds := seeds[cands[k] := seed];
    }
    assert cands[..|cands|] == cands;
    assert forall i :: i in seeds <==> i in cands;
  }

  /** The loop filling `fresh` and `prior`. */
  method PriorLoop(cands: seq<int>, idMeta: map<int, Hit>, freshness: string -> real)
    returns (prior: map<int, real>, recency: map<int, real>)
    ensures prior == PriorMap(cands, idMeta)
    ensures recency == FreshMap(cands, idMeta, freshness)
  {
    prior, recency := map[], map[];
    for k := 0 to |cands|
      invariant prior == PriorMap(cands[..k], idMeta)
      invariant recency == FreshMap(cands[..k], idMeta, freshness)
    {
      TabulateStep(cands, k, PriorOf(idMeta));
      TabulateStep(cands, k, FreshOf(idMeta, freshness));
      var i := cands[k];
      var meta := MetaHit(idMeta, i);
      var ts := OrEmpty(meta.ts);
      var role := OrEmpty(meta.role);
      var hasCode := false;
      var snippet := OrEmpty(meta.snippet);
      assert CandidateTs(idMeta, i) == ts;
      assert FreshOf(idMeta, freshness)(i) == freshness(CandidateTs(idMeta, i));
      recency := recency[i := freshness(ts)];
      prior := prior[i := Prior(role, hasCode, snippet)];
    }
    assert cands[..|cands|] == cands;
  }

  /** The fusion loop. */
  method FuseLoop(cands: seq<int>, sig: Signals) returns (fused: map<int, real>)
    ensures fused == FusedMap(cands, sig)
  {
    fused := map[];
    for k := 0 to |cands|
      invariant forall i :: i in fused <==> i in cands[..k]
      invariant forall i :: i in fused ==> fused[i] == Fuse(sig, i)
    {
      assert cands[..k + 1] == cands[..k] + [cands[k]];
      fused := fused[cands[k] := Fuse(sig, cands[k])];
    }
    assert cands[..|cands|] == cands;
    assert forall i :: i in fused <==> i in cands;
  }

  /** The output loop. */
  method RecordLoop(ranked: seq<int>, fused: map<int, real>, sig: Signals, idMeta: map<int, Hit>, prGlobal: map<int, real>, explain: bool)
    returns (out: seq<Ranked>)
    ensures out == Records(ranked, fused, sig, idMeta, prGlobal, explain)
  {
    out := [];
    for k := 0 to |ranked|
      invariant out == Records(ranked[..k], fused, sig, idMeta, prGlobal, explain)
    {
      var i := ranked[k];
      var meta := MetaHit(idMeta, i);
      var hit := Hit(i, Get(fused, i), meta.convId, meta.title, meta.role, meta.ts, OrElse(meta.snippet, None));
      var ex: Option<Explain> := None;
      if explain {
        ex := Some(Explain(Get(sig.bmMap, i), Get(sig.cosMap, i), Get(prGlobal, i), Get(sig.pprRaw, i), Get(sig.freshness, i)));
      }
      out := out + [Ranked(hit, ex)];
    }
    assert ranked[..|ranked|] == ranked;
  }

  /** First-stage recall: `bm_map`, `cos_map` and `id_meta`. */
  method Recall(inp: Inputs) returns (bmMap: map<int, real>, cosMap: map<int, real>, idMeta: map<int, Hit>)
    ensures bmMap == ScoreMap(inp.bm)
    ensures cosMap == ScoreMap(DenseHits(inp.dense))
    ensures idMeta == IdMeta(inp)
  {
    bmMap := ScoreMap(inp.bm);
    idMeta := LastRecords(inp.bm);
    cosMap := map[];
    if inp.dense.Some? {
      cosMap := ScoreMap(inp.dense.value);
      idMeta := SetDefaultAll(idMeta, inp.dense.value);
    }
  }

  /** The signals, from the seeds to the four z-normalised maps. */
  method ComputeSignals(cands: seq<int>, inp: Inputs, bmMap: map<int, real>, cosMap: map<int, real>, idMeta: map<int, Hit>)
    returns (sig: Signals)
    requires bmMap == ScoreMap(inp.bm)
    requires cosMap == ScoreMap(DenseHits(inp.dense))
    requires idMeta == IdMeta(inp)
    ensures sig == SignalsOf(cands, inp)
  {
    var seeds := SeedLoop(cands, bmMap, cosMap);
    var pprRaw: map<int, real>;
    if |inp.edges| > 0 {
      pprRaw := Ppr.MiniPpr(cands, inp.edges, seeds, Alpha, Iters);
    } else {
      pprRaw := Ppr.ZeroScores(cands);
    }
    assert pprRaw == PprRaw(cands, inp.edges, SeedMap(cands, bmMap, cosMap));
    var prior, recency := PriorLoop(cands, idMeta, inp.freshness);
    var bmZ := ZNorm(bmMap, cands, inp.sqrt);
    var cosZ := if cosMap != map[] then ZNorm(cosMap, cands, inp.sqrt) else ZeroMap(cands);
    var prgZ := if inp.prGlobal != map[] then ZNorm(inp.prGlobal, cands, inp.sqrt) else ZeroMap(cands);
    var pprZ := if pprRaw != map[] then ZNorm(pprRaw, cands, inp.sqrt) else ZeroMap(cands);
    sig := Signals(bmMap, cosMap, pprRaw, prior, recency, bmZ, cosZ, prgZ, pprZ);
  }

  /**
   * `hybrid_search`. Besides the records it returns the order in which it listed the
   * candidate set, which Python leaves unspecified; the result is `HybridResult` for that
   * order.
   */
  method HybridSearch(inp: Inputs, topk: int, explain: bool) returns (cands: seq<int>, out: seq<Ranked>)
    ensures Distinct(cands) && forall i :: i in cands <==> i in CandidateSet(inp)
    ensures out == HybridResult(cands, inp, topk, explain)
  {
    var bmMap, cosMap, idMeta := Recall(inp);
    cands := ListSet(bmMap.Keys + cosMap.Keys);
    if |cands| == 0 {
      return cands, [];
    }
    var sig := ComputeSignals(cands, inp, bmMap, cosMap, idMeta);
    var fused := FuseLoop(cands, sig);
    var ranked := RankedIds(cands, fused, topk);
    out := RecordLoop(ranked, fused, sig, idMeta, inp.prGlobal, explain);
  }
}
