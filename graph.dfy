/**
 * The message graph (`graph.py`): `build_edges` links consecutive messages of a
 * conversation with reply edges and, when dense vectors exist, links each message to its
 * most similar neighbours in the same conversation; `build_pagerank` turns `meta.json`
 * into a personalization vector and clamps the teleport probability. The cosine
 * similarity of two stored vectors, the recency boost and PageRank itself are outside the
 * model: the first two are parameters.
 */
module MessageGraph {
  import opened Common
  import opened Strings
  import SS = StableSort

  /** The fields of a `rows.jsonl` record that `build_edges` reads. */
  datatype GraphRow = GraphRow(msg: int, convId: string, ts: Option<string>)

  datatype EdgeKind = Reply | SameTopic

  datatype Edge = Edge(src: int, dst: int, w: real, kind: EdgeKind)

  /**
   * The contents of `vecs.npz`: the message id of each matrix row, and the cosine
   * similarity `_cos(vecs[j], vecs[k])` of two rows.
   */
  datatype Vectors = Vectors(ids: seq<int>, cos: (nat, nat) -> real)

  // ---------------------------------------------------------------------------
  // Grouping by conversation and the reply chain

  /** `x.get("ts") or ""`. */
  function TsKey(r: GraphRow): string
  {
    OrEmpty(r.ts)
  }

  /** The sort key of line 58 as a "may precede" relation. */
  function ByTs(): (GraphRow, GraphRow) -> bool
  {
    (x: GraphRow, y: GraphRow) => StrLe(TsKey(x), TsKey(y))
  }

  lemma {:induction false} ByTsTotal()
    ensures SS.TotalPreorder(ByTs())
  {
    forall x: GraphRow, y: GraphRow ensures ByTs()(x, y) || ByTs()(y, x) {
      StrLeTotal(TsKey(x), TsKey(y));
    }
    forall x: GraphRow, y: GraphRow, z: GraphRow | ByTs()(x, y) && ByTs()(y, z) ensures ByTs()(x, z) {
      StrLeTransitive(TsKey(x), TsKey(y), TsKey(z));
    }
  }

  /** Some row belongs to conversation `c`. */
  predicate HasConv(rows: seq<GraphRow>, c: string)
  {
    exists i :: 0 <= i < |rows| && rows[i].convId == c
  }

  /** The keys of `by_conv`: conversation ids in order of first appearance. */
  function ConvOrder(rows: seq<GraphRow>): (r: seq<string>)
    ensures Distinct(r)
    ensures forall c :: c in r <==> HasConv(rows, c)
  {
    if rows == [] then []
    else
      var init := rows[..|rows| - 1];
      var c := rows[|rows| - 1].convId;
      var r := ConvOrder(init);
      assert forall c' :: HasConv(rows, c') <==> HasConv(init, c') || c' == c by {
        forall c' | HasConv(rows, c') ensures HasConv(init, c') || c' == c {
          var i :| 0 <= i < |rows| && rows[i].convId == c';
          if i < |init| { assert init[i] == rows[i]; }
        }
        forall c' | HasConv(init, c') ensures HasConv(rows, c') {
          var i :| 0 <= i < |init| && init[i].convId == c';
          assert rows[i] == init[i];
        }
      }
      if c in r then r else r + [c]
  }

  /** `by_conv[c]` before sorting: the rows of conversation `c` in file order. */
  function Group(rows: seq<GraphRow>, c: string): (g: seq<GraphRow>)
    ensures forall x :: x in g ==> x.convId == c && x in rows
    ensures g == [] <==> !HasConv(rows, c)
  {
    if rows == [] then []
    else
      var init := rows[..|rows| - 1];
      var g := Group(init, c);
      assert forall i :: 0 <= i < |init| ==> rows[i] == init[i];
      assert HasConv(rows, c) <==> HasConv(init, c) || rows[|rows| - 1].convId == c by {
        if HasConv(rows, c) && rows[|rows| - 1].convId != c {
          var i :| 0 <= i < |rows| && rows[i].convId == c;
          assert init[i] == rows[i];
        }
        if HasConv(init, c) {
          var i :| 0 <= i < |init| && init[i].convId == c;
          assert rows[i] == init[i];
        }
      }
      if rows[|rows| - 1].convId == c then g + [rows[|rows| - 1]] else g
  }

  /** `by_conv[c]` after `lst.sort(key=lambda x: x.get("ts") or "")`. */
  function Conversation(rows: seq<GraphRow>, c: string): seq<GraphRow>
  {
    SS.Sort(Group(rows, c), ByTs())
  }

  /** The reply edges of one sorted conversation, each message to the next. */
  function ReplyChain(lst: seq<GraphRow>): seq<Edge>
  {
    seq(Max(|lst| - 1, 0), i requires 0 <= i < Max(|lst| - 1, 0) => Edge(lst[i].msg, lst[i + 1].msg, 2.0, Reply))
  }

  function ReplyEdgesOver(convs: seq<string>, rows: seq<GraphRow>): seq<Edge>
  {
    if convs == [] then []
    else ReplyEdgesOver(convs[..|convs| - 1], rows) + ReplyChain(Conversation(rows, convs[|convs| - 1]))
  }

  // ---------------------------------------------------------------------------
  // Same-topic edges

  /**
   * `[id_to_idx[int(r["msg"])] for r in lst if int(r["msg"]) in id_to_idx]`, where
   * `id_to_idx` is `IndexMap(ids)` (a repeated id keeps its last row).
   */
  function Idxs(lst: seq<GraphRow>, ids: seq<int>): (r: seq<nat>)
    ensures forall i :: 0 <= i < |r| ==> r[i] < |ids| && ids[r[i]] in IndexMap(ids) && IndexMap(ids)[ids[r[i]]] == r[i]
    ensures forall i :: 0 <= i < |r| ==> exists t :: 0 <= t < |lst| && lst[t].msg == ids[r[i]]
  {
    if lst == [] then []
    else
      var init := lst[..|lst| - 1];
      var m := lst[|lst| - 1].msg;
      var r := Idxs(init, ids);
      assert forall i :: 0 <= i < |r| ==> exists t :: 0 <= t < |lst| && lst[t].msg == ids[r[i]] by {
        forall i | 0 <= i < |r| ensures exists t :: 0 <= t < |lst| && lst[t].msg == ids[r[i]] {
          var t :| 0 <= t < |init| && init[t].msg == ids[r[i]];
          assert lst[t] == init[t];
        }
      }
      if m in IndexMap(ids) then r + [IndexMap(ids)[m]] else r
  }

  /** One entry `(k, s)` of `sims`. */
  datatype Sim = Sim(k: nat, s: real)

  /** `sims` for row `j`: the other rows of the pool at or above the threshold, in pool order. */
  function Sims(j: nat, idxs: seq<nat>, cos: (nat, nat) -> real, minCos: real): (r: seq<Sim>)
    ensures forall i :: 0 <= i < |r| ==> r[i].k != j && r[i].k in idxs && r[i].s == cos(j, r[i].k) && r[i].s >= minCos
  {
    if idxs == [] then []
    else
      var k := idxs[|idxs| - 1];
      var r := Sims(j, idxs[..|idxs| - 1], cos, minCos);
      if k == j || cos(j, k) < minCos then r else r + [Sim(k, cos(j, k))]
  }

  function BySimDesc(): (Sim, Sim) -> bool
  {
    (x: Sim, y: Sim) => x.s >= y.s
  }

  lemma {:induction false} BySimDescTotal()
    ensures SS.TotalPreorder(BySimDesc())
  {
  }

  /** `sims.sort(key=lambda t: t[1], reverse=True)` then `sims[:same_topic_k]`. */
  function Chosen(j: nat, idxs: seq<nat>, cos: (nat, nat) -> real, minCos: real, k: int): (r: seq<Sim>)
    ensures forall i :: 0 <= i < |r| ==> r[i] in Sims(j, idxs, cos, minCos)
  {
    var sims := Sims(j, idxs, cos, minCos);
    var sorted := SS.Sort(sims, BySimDesc());
    var r := PyTake(sorted, k);
    assert forall i :: 0 <= i < |r| ==> r[i] in sims by {
      forall i | 0 <= i < |r| ensures r[i] in sims {
        assert r[i] == sorted[i];
        assert sorted[i] in multiset(sorted);
      }
    }
    r
  }

  /** The same-topic edges out of row `j`. */
  function TopicFrom(j: nat, idxs: seq<nat>, v: Vectors, minCos: real, k: int): seq<Edge>
    requires j < |v.ids| && forall i :: 0 <= i < |idxs| ==> idxs[i] < |v.ids|
  {
    TopicEdges(v.ids[j], v.ids, Chosen(j, idxs, v.cos, minCos, k))
  }

  /** One same-topic edge from `src` per chosen row, weighted `1 + s`. */
  function TopicEdges(src: int, ids: seq<int>, chosen: seq<Sim>): seq<Edge>
    requires forall i :: 0 <= i < |chosen| ==> chosen[i].k < |ids|
  {
    seq(|chosen|, i requires 0 <= i < |chosen| => Edge(src, ids[chosen[i].k], 1.0 + chosen[i].s, SameTopic))
  }

  /** The same-topic edges of one conversation, source by source in pool order. */
  function TopicFromAll(js: seq<nat>, idxs: seq<nat>, v: Vectors, minCos: real, k: int): seq<Edge>
    requires forall i :: 0 <= i < |js| ==> js[i] < |v.ids|
    requires forall i :: 0 <= i < |idxs| ==> idxs[i] < |v.ids|
  {
    if js == [] then []
    else TopicFromAll(js[..|js| - 1], idxs, v, minCos, k) + TopicFrom(js[|js| - 1], idxs, v, minCos, k)
  }

  function TopicEdgesOver(convs: seq<string>, rows: seq<GraphRow>, v: Vectors, minCos: real, k: int): seq<Edge>
  {
    if convs == [] then []
    else
      var idxs := Idxs(Conversation(rows, convs[|convs| - 1]), v.ids);
      TopicEdgesOver(convs[..|convs| - 1], rows, v, minCos, k)
      + (if k <= 0 then [] else TopicFromAll(idxs, idxs, v, minCos, k))
  }

  /** Everything `build_edges` writes to `edges.jsonl`, in order. */
  function Edges(rows: seq<GraphRow>, vecs: Option<Vectors>, k: int, minCos: real): seq<Edge>
  {
    ReplyEdgesOver(ConvOrder(rows), rows)
    + (if vecs.None? then [] else TopicEdgesOver(ConvOrder(rows), rows, vecs.value, minCos, k))
  }

  // ---------------------------------------------------------------------------
  // The loops of `build_edges`

  /** `for r in rows: by_conv[r["conv_id"]].append(r)`. */
  method GroupByConv(rows: seq<GraphRow>) returns (convs: seq<string>, groups: map<string, seq<GraphRow>>)
    ensures convs == ConvOrder(rows)
    ensures forall c :: c in groups <==> c in convs
    ensures forall c :: c in groups ==> groups[c] == Group(rows, c)
  {
    convs, groups := [], map[];
    var i := 0;
    while i < |rows|
      invariant 0 <= i <= |rows|
      invariant convs == ConvOrder(rows[..i])
      invariant forall c :: c in groups <==> c in convs
      invariant forall c :: c in groups ==> groups[c] == Group(rows[..i], c)
    {
      var r := rows[i];
      assert rows[..i + 1][..i] == rows[..i];
      if r.convId in groups {
        groups := groups[r.convId := groups[r.convId] + [r]];
      } else {
        convs := convs + [r.convId];
        groups := groups[r.convId := [r]];
      }
      i := i + 1;
    }
    assert rows[..i] == rows;
  }

  /** `for i in range(len(lst) - 1)`: one reply edge per consecutive pair. */
  method ReplyChainOf(lst: seq<GraphRow>) returns (chain: seq<Edge>)
    ensures chain == ReplyChain(lst)
  {
    chain := [];
    var i := 0;
    while i < |lst| - 1
      invariant 0 <= i <= Max(|lst| - 1, 0)
      invariant chain == seq(i, t requires 0 <= t < i => Edge(lst[t].msg, lst[t + 1].msg, 2.0, Reply))
    {
      chain := chain + [Edge(lst[i].msg, lst[i + 1].msg, 2.0, Reply)];
      i := i + 1;
    }
  }

  /** The first loop of the body of `for j in idxs`: the pool rows at or above the threshold. */
  method CollectSims(j: nat, idxs: seq<nat>, cos: (nat, nat) -> real, minCos: real) returns (sims: seq<Sim>)
    ensures sims == Sims(j, idxs, cos, minCos)
  {
    sims := [];
    var t := 0;
    while t < |idxs|
      invariant 0 <= t <= |idxs|
      invariant sims == Sims(j, idxs[..t], cos, minCos)
    {
      assert idxs[..t + 1][..t] == idxs[..t];
      var other := idxs[t];
      if other != j {
        var s := cos(j, other);
        if s >= minCos {
          sims := sims + [Sim(other, s)];
        }
      }
      t := t + 1;
    }
    assert idxs[..t] == idxs;
  }

  /** The body of `for j in idxs`: filter, sort and cut `sims`, then emit the edges. */
  method TopicEdgesFrom(j: nat, idxs: seq<nat>, v: Vectors, minCos: real, k: int) returns (out: seq<Edge>)
    requires j < |v.ids| && forall i :: 0 <= i < |idxs| ==> idxs[i] < |v.ids|
    ensures out == TopicFrom(j, idxs, v, minCos, k)
  {
    var sims := CollectSims(j, idxs, v.cos, minCos);
    var chosen := PyTake(SS.Sort(sims, BySimDesc()), k);
    assert chosen == Chosen(j, idxs, v.cos, minCos, k);
    out := EmitTopicEdges(v.ids[j], v.ids, chosen);
  }

  /** The inner `for k, s in sims` of the body: one edge per chosen row. */
  method EmitTopicEdges(src: int, ids: seq<int>, chosen: seq<Sim>) returns (out: seq<Edge>)
    requires forall i :: 0 <= i < |chosen| ==> chosen[i].k < |ids|
    ensures out == TopicEdges(src, ids, chosen)
  {
    out := [];
    var i := 0;
    while i < |chosen|
      invariant 0 <= i <= |chosen|
      invariant out == seq(i, q requires 0 <= q < i => Edge(src, ids[chosen[q].k], 1.0 + chosen[q].s, SameTopic))
    {
      out := out + [Edge(src, ids[chosen[i].k], 1.0 + chosen[i].s, SameTopic)];
      i := i + 1;
    }
  }

  /** `for j in idxs` over one conversation's pool. */
  method ConversationTopicEdges(idxs: seq<nat>, v: Vectors, minCos: real, k: int) returns (out: seq<Edge>)
    requires forall i :: 0 <= i < |idxs| ==> idxs[i] < |v.ids|
    ensures out == TopicFromAll(idxs, idxs, v, minCos, k)
  {
    out := [];
    var i := 0;
    while i < |idxs|
      invariant 0 <= i <= |idxs|
      invariant out == TopicFromAll(idxs[..i], idxs, v, minCos, k)
    {
      assert idxs[..i + 1][..i] == idxs[..i];
      var more := TopicEdgesFrom(idxs[i], idxs, v, minCos, k);
      out := out + more;
      i := i + 1;
    }
    assert idxs[..i] == idxs;
  }

  /** The reply phase: sort each conversation (the result is `by_conv` after the in-place sorts) and chain its messages. */
  method ReplyPhase(rows: seq<GraphRow>, convs: seq<string>, groups0: map<string, seq<GraphRow>>)
    returns (edges: seq<Edge>, groups: map<string, seq<GraphRow>>)
    requires forall c :: c in groups0 <==> c in convs
    requires forall c :: c in groups0 ==> groups0[c] == Group(rows, c)
    ensures edges == ReplyEdgesOver(convs, rows)
    ensures forall c :: c in groups <==> c in convs
    ensures forall c :: c in groups ==> groups[c] == Conversation(rows, c)
  {
    groups := map[];
    edges := [];
    var i := 0;
    while i < |convs|
      invariant 0 <= i <= |convs|
      invariant edges == ReplyEdgesOver(convs[..i], rows)
      invariant forall c :: c in groups <==> c in convs[..i]
      invariant forall c :: c in groups ==> groups[c] == Conversation(rows, c)
    {
      var c := convs[i];
      ReplyEdgesOverStep(convs, i, rows);
      var lst := SS.Sort(groups0[c], ByTs());
      groups := groups[c := lst];
      var chain := ReplyChainOf(lst);
      edges := edges + chain;
      i := i + 1;
    }
    assert convs[..i] == convs;
  }

  lemma {:induction false} ReplyEdgesOverStep(convs: seq<string>, i: int, rows: seq<GraphRow>)
    requires 0 <= i < |convs|
    ensures ReplyEdgesOver(convs[..i + 1], rows) == ReplyEdgesOver(convs[..i], rows) + ReplyChain(Conversation(rows, convs[i]))
    ensures forall c :: c in convs[..i + 1] <==> c in convs[..i] || c == convs[i]
  {
    var pre := convs[..i + 1];
    assert pre[..i] == convs[..i];
    assert pre[i] == convs[i];
    assert pre == convs[..i] + [convs[i]];
  }

  lemma {:induction false} TopicEdgesOverStep(convs: seq<string>, i: nat, rows: seq<GraphRow>, v: Vectors, minCos: real, k: int)
    requires i < |convs|
    ensures TopicEdgesOver(convs[..i + 1], rows, v, minCos, k)
         == TopicEdgesOver(convs[..i], rows, v, minCos, k)
            + (if k <= 0 then [] else
                 var idxs := Idxs(Conversation(rows, convs[i]), v.ids); TopicFromAll(idxs, idxs, v, minCos, k))
  {
    var pre := convs[..i + 1];
    assert pre[..i] == convs[..i];
    assert pre[i] == convs[i];
  }

  /** The same-topic phase, over the sorted conversations. */
  method TopicPhase(rows: seq<GraphRow>, convs: seq<string>, groups: map<string, seq<GraphRow>>,
                    sameTopicK: int, minCos: real, v: Vectors)
    returns (edges: seq<Edge>)
    requires forall c :: c in convs ==> c in groups && groups[c] == Conversation(rows, c)
    ensures edges == TopicEdgesOver(convs, rows, v, minCos, sameTopicK)
  {
    edges := [];
    var i := 0;
    while i < |convs|
      invariant 0 <= i <= |convs|
      invariant edges == TopicEdgesOver(convs[..i], rows, v, minCos, sameTopicK)
    {
      TopicEdgesOverStep(convs, i, rows, v, minCos, sameTopicK);
      if sameTopicK > 0 {
        var idxs := Idxs(groups[convs[i]], v.ids);
        var more := ConversationTopicEdges(idxs, v, minCos, sameTopicK);
        edges := edges + more;
      }
      i := i + 1;
    }
    assert convs[..i] == convs;
  }

  /** `build_edges` on in-memory rows and vectors; the result is the list written to `edges.jsonl`. */
  method BuildEdges(rows: seq<GraphRow>, sameTopicK: int, minCos: real, vecs: Option<Vectors>)
    returns (edges: seq<Edge>)
    ensures edges == Edges(rows, vecs, sameTopicK, minCos)
  {
    var convs, groups := GroupByConv(rows);
    edges, groups := ReplyPhase(rows, convs, groups);
    if vecs.Some? {
      var more := TopicPhase(rows, convs, groups, sameTopicK, minCos, vecs.value);
      edges := edges + more;
    }
  }

  // ---------------------------------------------------------------------------
  // Properties of the edge list

  /** Message `m` has a row in conversation `c`. */
  predicate InConv(rows: seq<GraphRow>, c: string, m: int)
  {
    exists i :: 0 <= i < |rows| && rows[i].convId == c && rows[i].msg == m
  }

  /** Messages `a` and `b` have rows in one conversation. */
  ghost predicate SameConv(rows: seq<GraphRow>, a: int, b: int)
  {
    exists c :: InConv(rows, c, a) && InConv(rows, c, b)
  }

  /**
   * A sorted conversation is its rows in `ts` order, equal keys in file order, and all of
   * them belong to the conversation.
   */
  lemma {:induction false} ConversationFacts(rows: seq<GraphRow>, c: string)
    ensures var lst := Conversation(rows, c);
      && multiset(lst) == multiset(Group(rows, c))
      && SS.Sorted(lst, ByTs())
      && (forall z :: SS.TiedWith(lst, z, ByTs()) == SS.TiedWith(Group(rows, c), z, ByTs()))
      && (forall i :: 0 <= i < |lst| ==> lst[i].convId == c && InConv(rows, c, lst[i].msg))
  {
    var lst := Conversation(rows, c);
    ByTsTotal();
    SS.SortSorted(Group(rows, c), ByTs());
    forall z { SS.SortStable(Group(rows, c), z, ByTs()); }
    forall i | 0 <= i < |lst| ensures lst[i].convId == c && InConv(rows, c, lst[i].msg) {
      assert lst[i] in multiset(lst);
      assert lst[i] in Group(rows, c);
      var t :| 0 <= t < |rows| && rows[t] == lst[i];
    }
  }

  /** A conversation with n rows yields exactly n - 1 reply edges. */
  lemma {:induction false} ReplyCount(rows: seq<GraphRow>, c: string)
    requires c in ConvOrder(rows)
    ensures |Group(rows, c)| >= 1
    ensures |ReplyChain(Conversation(rows, c))| == |Group(rows, c)| - 1
  {
  }

  lemma {:induction false} ReplyEdgesOverFacts(convs: seq<string>, rows: seq<GraphRow>)
    ensures forall e :: e in ReplyEdgesOver(convs, rows) ==>
      e.kind == Reply && e.w == 2.0 && SameConv(rows, e.src, e.dst)
  {
    if convs != [] {
      var c := convs[|convs| - 1];
      ReplyEdgesOverFacts(convs[..|convs| - 1], rows);
      var lst := Conversation(rows, c);
      ConversationFacts(rows, c);
      var chain := ReplyChain(lst);
      forall e | e in chain ensures e.kind == Reply && e.w == 2.0 && SameConv(rows, e.src, e.dst) {
        var i :| 0 <= i < |chain| && chain[i] == e;
        assert InConv(rows, c, lst[i].msg) && InConv(rows, c, lst[i + 1].msg);
      }
    }
  }

  /**
   * `sims[:same_topic_k]` after the descending sort: at most k entries, best first, and any
   * qualifying neighbour left out is no more similar than every kept one; when fewer than k
   * are kept, none was left out.
   */
  lemma {:induction false} ChosenTopK(j: nat, idxs: seq<nat>, cos: (nat, nat) -> real, minCos: real, k: int)
    ensures var r, sims := Chosen(j, idxs, cos, minCos, k), Sims(j, idxs, cos, minCos);
      && (k >= 0 ==> |r| <= k)
      && (forall i, i' :: 0 <= i < i' < |r| ==> r[i].s >= r[i'].s)
      && (forall x :: x in sims && x !in r ==> forall i :: 0 <= i < |r| ==> r[i].s >= x.s)
      && (0 <= |r| < k ==> forall x :: x in sims ==> x in r)
  {
    var sims := Sims(j, idxs, cos, minCos);
    var r := Chosen(j, idxs, cos, minCos, k);
    BySimDescTotal();
    SS.TopK(sims, BySimDesc(), k);
    forall x | x in sims && x !in r ensures forall i :: 0 <= i < |r| ==> r[i].s >= x.s {
      SS.TopKLeftOut(sims, BySimDesc(), k, x);
    }
    if 0 <= |r| < k {
      SS.TopKShort(sims, BySimDesc(), k);
    }
  }

  /**
   * The same-topic edges out of row `j`: at most k, all from `ids[j]`, each to another row
   * of the pool at or above the threshold with weight `1 + s`, in descending weight.
   */
  lemma {:induction false} TopicFromFacts(j: nat, idxs: seq<nat>, v: Vectors, minCos: real, k: int)
    requires j < |v.ids| && forall i :: 0 <= i < |idxs| ==> idxs[i] < |v.ids|
    ensures var out := TopicFrom(j, idxs, v, minCos, k);
      && (k >= 0 ==> |out| <= k)
      && (forall i, i' :: 0 <= i < i' < |out| ==> out[i].w >= out[i'].w)
      && (forall i :: 0 <= i < |out| ==>
            && out[i].kind == SameTopic && out[i].src == v.ids[j]
            && exists t :: 0 <= t < |idxs| && idxs[t] != j && out[i].dst == v.ids[idxs[t]]
                 && v.cos(j, idxs[t]) >= minCos && out[i].w == 1.0 + v.cos(j, idxs[t]))
  {
    var chosen := Chosen(j, idxs, v.cos, minCos, k);
    var out := TopicFrom(j, idxs, v, minCos, k);
    ChosenTopK(j, idxs, v.cos, minCos, k);
    forall i | 0 <= i < |out|
      ensures exists t :: 0 <= t < |idxs| && idxs[t] != j && out[i].dst == v.ids[idxs[t]]
                 && v.cos(j, idxs[t]) >= minCos && out[i].w == 1.0 + v.cos(j, idxs[t])
    {
      var sims := Sims(j, idxs, v.cos, minCos);
      assert chosen[i] in sims;
      var t :| 0 <= t < |idxs| && idxs[t] == chosen[i].k;
    }
  }

  /** A pool row whose id maps back to it and whose message is in conversation `c`. */
  predicate PoolRow(rows: seq<GraphRow>, c: string, v: Vectors, x: nat)
  {
    x < |v.ids| && v.ids[x] in IndexMap(v.ids) && IndexMap(v.ids)[v.ids[x]] == x && InConv(rows, c, v.ids[x])
  }

  lemma {:induction false} TopicFromAllFacts(js: seq<nat>, idxs: seq<nat>, v: Vectors, minCos: real, k: int, rows: seq<GraphRow>, c: string)
    requires forall i :: 0 <= i < |js| ==> js[i] < |v.ids| && PoolRow(rows, c, v, js[i])
    requires forall i :: 0 <= i < |idxs| ==> idxs[i] < |v.ids| && PoolRow(rows, c, v, idxs[i])
    ensures forall e :: e in TopicFromAll(js, idxs, v, minCos, k) ==>
      && e.kind == SameTopic && e.src != e.dst && e.w >= 1.0 + minCos
      && InConv(rows, c, e.src) && InConv(rows, c, e.dst)
      && e.src in v.ids && e.dst in v.ids
  {
    if js != [] {
      var j := js[|js| - 1];
      TopicFromAllFacts(js[..|js| - 1], idxs, v, minCos, k, rows, c);
      TopicFromFacts(j, idxs, v, minCos, k);
      var out := TopicFrom(j, idxs, v, minCos, k);
      forall e | e in out
        ensures e.kind == SameTopic && e.src != e.dst && e.w >= 1.0 + minCos
        ensures InConv(rows, c, e.src) && InConv(rows, c, e.dst)
        ensures e.src in v.ids && e.dst in v.ids
      {
        var i :| 0 <= i < |out| && out[i] == e;
        var t :| 0 <= t < |idxs| && idxs[t] != j && out[i].dst == v.ids[idxs[t]]
                 && v.cos(j, idxs[t]) >= minCos && out[i].w == 1.0 + v.cos(j, idxs[t]);
        assert PoolRow(rows, c, v, idxs[t]);
        assert e.src == v.ids[j] && e.dst == v.ids[idxs[t]];
      }
    }
  }

  /** The pool of a conversation holds only rows of that conversation, each mapping back to itself. */
  lemma {:induction false} IdxsArePoolRows(rows: seq<GraphRow>, c: string, v: Vectors)
    ensures forall x :: x in Idxs(Conversation(rows, c), v.ids) ==> PoolRow(rows, c, v, x)
  {
    var lst := Conversation(rows, c);
    var idxs := Idxs(lst, v.ids);
    ConversationFacts(rows, c);
    forall x | x in idxs ensures PoolRow(rows, c, v, x) {
      var i :| 0 <= i < |idxs| && idxs[i] == x;
      var t :| 0 <= t < |lst| && lst[t].msg == v.ids[idxs[i]];
    }
  }

  lemma {:induction false} TopicEdgesOverFacts(convs: seq<string>, rows: seq<GraphRow>, v: Vectors, minCos: real, k: int)
    ensures forall e :: e in TopicEdgesOver(convs, rows, v, minCos, k) ==>
      && k > 0 && e.kind == SameTopic && e.src != e.dst && e.w >= 1.0 + minCos
      && SameConv(rows, e.src, e.dst)
      && e.src in v.ids && e.dst in v.ids
  {
    if convs != [] {
      var c := convs[|convs| - 1];
      TopicEdgesOverFacts(convs[..|convs| - 1], rows, v, minCos, k);
      if k > 0 {
        var idxs := Idxs(Conversation(rows, c), v.ids);
        IdxsArePoolRows(rows, c, v);
        assert forall i :: 0 <= i < |idxs| ==> idxs[i] < |v.ids| && PoolRow(rows, c, v, idxs[i]) by {
          forall i | 0 <= i < |idxs| ensures PoolRow(rows, c, v, idxs[i]) {
            assert idxs[i] in idxs;
          }
        }
        TopicFromAllFacts(idxs, idxs, v, minCos, k, rows, c);
        forall e | e in TopicFromAll(idxs, idxs, v, minCos, k) ensures SameConv(rows, e.src, e.dst) {
          assert InConv(rows, c, e.src) && InConv(rows, c, e.dst);
        }
      }
    }
  }

  /** A reply edge as `build_edges` emits it. */
  ghost predicate GoodReply(rows: seq<GraphRow>, e: Edge)
  {
    e.kind == Reply && e.w == 2.0 && SameConv(rows, e.src, e.dst)
  }

  /** A same-topic edge as `build_edges` emits it. */
  ghost predicate GoodTopic(rows: seq<GraphRow>, e: Edge, minCos: real)
  {
    e.kind == SameTopic && e.src != e.dst && e.w >= 1.0 + minCos && SameConv(rows, e.src, e.dst)
  }

  lemma {:induction false} NoTopicEdgesWhenOff(convs: seq<string>, rows: seq<GraphRow>, v: Vectors, minCos: real, k: int)
    requires k <= 0
    ensures TopicEdgesOver(convs, rows, v, minCos, k) == []
  {
    if convs != [] {
      NoTopicEdgesWhenOff(convs[..|convs| - 1], rows, v, minCos, k);
    }
  }

  lemma {:induction false} AllReplies(rows: seq<GraphRow>)
    ensures forall e :: e in ReplyEdgesOver(ConvOrder(rows), rows) ==> GoodReply(rows, e)
  {
    ReplyEdgesOverFacts(ConvOrder(rows), rows);
  }

  lemma {:induction false} AllTopics(rows: seq<GraphRow>, v: Vectors, k: int, minCos: real)
    ensures forall e :: e in TopicEdgesOver(ConvOrder(rows), rows, v, minCos, k) ==> k > 0 && GoodTopic(rows, e, minCos)
  {
    TopicEdgesOverFacts(ConvOrder(rows), rows, v, minCos, k);
  }

  /** The edge list starts with the reply edges: weight 2.0, both ends in one conversation. */
  lemma {:induction false} EdgesStartWithReplies(rows: seq<GraphRow>, vecs: Option<Vectors>, k: int, minCos: real)
    ensures var edges, n := Edges(rows, vecs, k, minCos), |ReplyEdgesOver(ConvOrder(rows), rows)|;
      && n <= |edges|
      && forall i :: 0 <= i < n ==> GoodReply(rows, edges[i])
  {
    var replies := ReplyEdgesOver(ConvOrder(rows), rows);
    var edges := Edges(rows, vecs, k, minCos);
    AllReplies(rows);
    assert edges[..|replies|] == replies;
    forall i | 0 <= i < |replies| ensures GoodReply(rows, edges[i]) {
      assert edges[i] == replies[i];
      assert replies[i] in replies;
    }
  }

  /**
   * After the reply edges come only same-topic edges, between two distinct messages of one
   * conversation with weight at least `1 + same_topic_min_cos`; with `same_topic_k <= 0` or
   * without vectors there are none.
   */
  lemma {:induction false} EdgesEndWithTopics(rows: seq<GraphRow>, vecs: Option<Vectors>, k: int, minCos: real)
    ensures var edges, n := Edges(rows, vecs, k, minCos), |ReplyEdgesOver(ConvOrder(rows), rows)|;
      && (k <= 0 || vecs.None? ==> |edges| == n)
      && forall i :: n <= i < |edges| ==> vecs.Some? && k > 0 && GoodTopic(rows, edges[i], minCos)
  {
    var replies := ReplyEdgesOver(ConvOrder(rows), rows);
    if vecs.Some? {
      var topic := TopicEdgesOver(ConvOrder(rows), rows, vecs.value, minCos, k);
      AllTopics(rows, vecs.value, k, minCos);
      if k <= 0 {
        NoTopicEdgesWhenOff(ConvOrder(rows), rows, vecs.value, minCos, k);
      }
      assert topic != [] ==> topic[0] in topic;
      GoodTopicTail(replies, topic, rows, minCos);
    } else {
      assert Edges(rows, vecs, k, minCos) == replies;
    }
  }

  lemma {:induction false} GoodTopicTail(replies: seq<Edge>, topic: seq<Edge>, rows: seq<GraphRow>, minCos: real)
    requires forall e :: e in topic ==> GoodTopic(rows, e, minCos)
    ensures forall i :: |replies| <= i < |replies + topic| ==> GoodTopic(rows, (replies + topic)[i], minCos)
  {
    forall i | |replies| <= i < |replies + topic| ensures GoodTopic(rows, (replies + topic)[i], minCos) {
      assert (replies + topic)[i] == topic[i - |replies|];
      assert topic[i - |replies|] in topic;
    }
  }

  // ---------------------------------------------------------------------------
  // `build_pagerank`: the personalization vector and the damping factor

  /**
   * The personalization weight `b` of one `meta.json` entry; `recency` stands for
   * `recency_boost` (an exponential decay of the entry's age, 0.0 when `ts` does not parse).
   */
  function PrWeight(v: MetaEntry, recency: string -> real): real
  {
    0.000001 + recency(OrEmpty(v.ts))
    + (if Lower(OrEmpty(v.role)) == "assistant" then 0.05 else 0.0)
    + (if v.hasCode then 0.05 else 0.0)
  }

  /** Every weight is at least `1e-6` once the recency boost is non-negative. */
  lemma {:induction false} PrWeightAtLeast(v: MetaEntry, recency: string -> real)
    requires recency(OrEmpty(v.ts)) >= 0.0
    ensures PrWeight(v, recency) >= 0.000001
    ensures PrWeight(v, recency) <= 0.100001 + recency(OrEmpty(v.ts))
  {
  }

  /** Some entry has id `m`. */
  predicate HasId(items: seq<(int, MetaEntry)>, m: int)
  {
    exists i :: 0 <= i < |items| && items[i].0 == m
  }

  lemma {:induction false} HasIdLast(items: seq<(int, MetaEntry)>)
    requires items != []
    ensures forall m :: HasId(items, m) <==> HasId(items[..|items| - 1], m) || m == items[|items| - 1].0
  {
    var init := items[..|items| - 1];
    forall m | HasId(items, m) ensures HasId(init, m) || m == items[|items| - 1].0 {
      var i :| 0 <= i < |items| && items[i].0 == m;
      if i < |init| { assert init[i] == items[i]; }
    }
    forall m | HasId(init, m) ensures HasId(items, m) {
      var i :| 0 <= i < |init| && init[i].0 == m;
      assert items[i] == init[i];
    }
  }

  /** The dict `p` after the first loop: `p[int(k)] = b`, a repeated id overwritten. */
  function RawWeights(items: seq<(int, MetaEntry)>, recency: string -> real): (w: map<int, real>)
    ensures forall m :: m in w <==> HasId(items, m)
  {
    if items == [] then map[]
    else
      var last := items[|items| - 1];
      HasIdLast(items);
      RawWeights(items[..|items| - 1], recency)[last.0 := PrWeight(last.1, recency)]
  }

  /** The keys of `p` in dict order (first insertion). */
  function KeyOrder(items: seq<(int, MetaEntry)>): (r: seq<int>)
    ensures Distinct(r)
    ensures forall m :: m in r <==> HasId(items, m)
    ensures forall i :: 0 <= i < |r| ==> HasId(items, r[i])
  {
    if items == [] then []
    else
      var r := KeyOrder(items[..|items| - 1]);
      var m := items[|items| - 1].0;
      HasIdLast(items);
      if m in r then r else r + [m]
  }

  /** The sum of `w` over `keys`. */
  function Total(keys: seq<int>, w: map<int, real>): real
    requires forall i :: 0 <= i < |keys| ==> keys[i] in w
  {
    if keys == [] then 0.0 else Total(keys[..|keys| - 1], w) + w[keys[|keys| - 1]]
  }

  /** The sum of `w` over those `keys` that are in `keep`. */
  function KeptTotal(keys: seq<int>, w: map<int, real>, keep: set<int>): real
    requires forall i :: 0 <= i < |keys| && keys[i] in keep ==> keys[i] in w
  {
    if keys == [] then 0.0
    else
      var k := keys[|keys| - 1];
      KeptTotal(keys[..|keys| - 1], w, keep) + (if k in keep then w[k] else 0.0)
  }

  /** `sum(p.values()) or 1.0`. */
  function Divisor(items: seq<(int, MetaEntry)>, recency: string -> real): real
  {
    var total := Total(KeyOrder(items), RawWeights(items, recency));
    if total == 0.0 then 1.0 else total
  }

  /** The personalization passed to PageRank: normalised over all entries, then cut to graph nodes. */
  function PersonalizationOf(items: seq<(int, MetaEntry)>, nodes: set<int>, recency: string -> real): map<int, real>
  {
    var raw := RawWeights(items, recency);
    map m | m in raw && m in nodes :: raw[m] / Divisor(items, recency)
  }

  lemma {:induction false} WeightsStep(items: seq<(int, MetaEntry)>, i: nat, recency: string -> real)
    requires i < |items|
    ensures RawWeights(items[..i + 1], recency) == RawWeights(items[..i], recency)[items[i].0 := PrWeight(items[i].1, recency)]
    ensures KeyOrder(items[..i + 1]) == var r := KeyOrder(items[..i]); if items[i].0 in r then r else r + [items[i].0]
  {
    assert items[..i + 1][..i] == items[..i];
  }

  /** The loop of lines 123-132: one weight per entry, keys in dict order. */
  method WeighEntries(items: seq<(int, MetaEntry)>, recency: string -> real)
    returns (raw: map<int, real>, keys: seq<int>)
    ensures raw == RawWeights(items, recency)
    ensures keys == KeyOrder(items)
  {
    raw, keys := map[], [];
    var i := 0;
    while i < |items|
      invariant 0 <= i <= |items|
      invariant raw == RawWeights(items[..i], recency)
      invariant keys == KeyOrder(items[..i])
    {
      WeightsStep(items, i, recency);
      var (msg, v) := items[i];
      var b := 0.000001;
      b := b + recency(OrEmpty(v.ts));
      if Lower(OrEmpty(v.role)) == "assistant" {
        b := b + 0.05;
      }
      if v.hasCode {
        b := b + 0.05;
      }
      if msg !in keys {
        keys := keys + [msg];
      }
      assert b == PrWeight(v, recency);
      raw := raw[msg := b];
      i := i + 1;
    }
    assert items[..i] == items;
  }

  /** `sum(p.values())`. */
  method SumValues(keys: seq<int>, raw: map<int, real>) returns (s: real)
    requires forall i :: 0 <= i < |keys| ==> keys[i] in raw
    ensures s == Total(keys, raw)
  {
    s := 0.0;
    var j := 0;
    while j < |keys|
      invariant 0 <= j <= |keys|
      invariant s == Total(keys[..j], raw)
    {
      assert keys[..j + 1][..j] == keys[..j];
      s := s + raw[keys[j]];
      j := j + 1;
    }
    assert keys[..j] == keys;
  }

  /** Lines 123-136: the weights, their normalisation, and the cut to graph nodes. */
  method Personalization(items: seq<(int, MetaEntry)>, nodes: set<int>, recency: string -> real)
    returns (p: map<int, real>)
    ensures p == PersonalizationOf(items, nodes, recency)
  {
    var raw, keys := WeighEntries(items, recency);
    var s := SumValues(keys, raw);
    if s == 0.0 {
      s := 1.0;
    }
    assert s == Divisor(items, recency);
    p := map m | m in raw && m in nodes :: raw[m] / s;
  }

  lemma {:induction false} KeptTotalNonNegative(keys: seq<int>, w: map<int, real>, keep: set<int>)
    requires forall i :: 0 <= i < |keys| && keys[i] in keep ==> keys[i] in w && w[keys[i]] >= 0.0
    ensures KeptTotal(keys, w, keep) >= 0.0
  {
    if keys != [] {
      KeptTotalNonNegative(keys[..|keys| - 1], w, keep);
    }
  }

  /** Keeping only some keys never raises a sum of non-negative weights; keeping all of them changes nothing. */
  lemma {:induction false} KeptTotalAtMostTotal(keys: seq<int>, w: map<int, real>, keep: set<int>)
    requires forall i :: 0 <= i < |keys| ==> keys[i] in w && w[keys[i]] >= 0.0
    ensures KeptTotal(keys, w, keep) <= Total(keys, w)
    ensures (forall i :: 0 <= i < |keys| ==> keys[i] in keep) ==> KeptTotal(keys, w, keep) == Total(keys, w)
  {
    if keys != [] {
      KeptTotalAtMostTotal(keys[..|keys| - 1], w, keep);
    }
  }

  /** Dividing every kept weight by `d` divides their sum by `d`. */
  lemma {:induction false} KeptTotalScaled(keys: seq<int>, w: map<int, real>, p: map<int, real>, keep: set<int>, d: real)
    requires d > 0.0
    requires forall i :: 0 <= i < |keys| && keys[i] in keep ==> keys[i] in w && keys[i] in p && p[keys[i]] == w[keys[i]] / d
    ensures KeptTotal(keys, p, keep) == KeptTotal(keys, w, keep) / d
  {
    if keys != [] {
      KeptTotalScaled(keys[..|keys| - 1], w, p, keep, d);
    }
  }

  /** A sum of non-negative weights that includes a positive one is positive. */
  lemma {:induction false} TotalPositive(keys: seq<int>, w: map<int, real>, m: int)
    requires forall i :: 0 <= i < |keys| ==> keys[i] in w && w[keys[i]] >= 0.0
    requires m in keys && w[m] > 0.0
    ensures Total(keys, w) > 0.0
  {
    var init := keys[..|keys| - 1];
    if keys[|keys| - 1] == m {
      KeptTotalAtMostTotal(init, w, {});
      KeptTotalNonNegative(init, w, {});
    } else {
      assert m in init;
      TotalPositive(init, w, m);
    }
  }

  lemma {:induction false} RawWeightsPositive(items: seq<(int, MetaEntry)>, recency: string -> real)
    requires forall i :: 0 <= i < |items| ==> recency(OrEmpty(items[i].1.ts)) >= 0.0
    ensures forall m :: m in RawWeights(items, recency) ==> RawWeights(items, recency)[m] > 0.0
  {
    if items != [] {
      var init := items[..|items| - 1];
      assert forall i :: 0 <= i < |init| ==> init[i] == items[i];
      RawWeightsPositive(init, recency);
      PrWeightAtLeast(items[|items| - 1].1, recency);
    }
  }

  lemma {:induction false} DivAtMostOne(x: real, y: real)
    requires 0.0 <= x <= y && y > 0.0
    ensures x / y <= 1.0
  {
    assert (x / y) * y == x;
  }

  /**
   * With non-negative recency boosts, every kept weight is positive and the kept weights,
   * normalised over all entries before the non-graph ids are dropped, sum to at most 1 (to
   * exactly 1 when every entry is a graph node and there is at least one).
   */
  lemma {:induction false} PersonalizationBounds(items: seq<(int, MetaEntry)>, nodes: set<int>, recency: string -> real)
    requires forall i :: 0 <= i < |items| ==> recency(OrEmpty(items[i].1.ts)) >= 0.0
    ensures var p, keys := PersonalizationOf(items, nodes, recency), KeyOrder(items);
      && (forall m :: m in p <==> m in nodes && m in keys)
      && (forall m :: m in p ==> p[m] > 0.0)
      && KeptTotal(keys, p, nodes) <= 1.0
      && (items != [] && (forall m :: m in keys ==> m in nodes) ==> KeptTotal(keys, p, nodes) == 1.0)
  {
    var raw := RawWeights(items, recency);
    var keys := KeyOrder(items);
    var p := PersonalizationOf(items, nodes, recency);
    RawWeightsPositive(items, recency);
    var d := Divisor(items, recency);
    if items != [] {
      assert HasId(items, items[0].0);
      TotalPositive(keys, raw, items[0].0);
    }
    forall m | m in p ensures p[m] > 0.0 {
      DivPositive(raw[m], d);
    }
    NormalizedKeptBounds(keys, raw, p, nodes, d);
  }

  /** Weights divided by their total (or by 1.0 when it is zero) and then cut keep a sum of at most 1. */
  lemma {:induction false} NormalizedKeptBounds(keys: seq<int>, raw: map<int, real>, p: map<int, real>, nodes: set<int>, d: real)
    requires forall i :: 0 <= i < |keys| ==> keys[i] in raw && raw[keys[i]] >= 0.0
    requires d == (if Total(keys, raw) == 0.0 then 1.0 else Total(keys, raw))
    requires forall i :: 0 <= i < |keys| && keys[i] in nodes ==> keys[i] in p && p[keys[i]] == raw[keys[i]] / d
    ensures KeptTotal(keys, p, nodes) <= 1.0
    ensures Total(keys, raw) > 0.0 && (forall i :: 0 <= i < |keys| ==> keys[i] in nodes) ==> KeptTotal(keys, p, nodes) == 1.0
  {
    var total := Total(keys, raw);
    KeptTotalAtMostTotal(keys, raw, nodes);
    KeptTotalNonNegative(keys, raw, nodes);
    assert d > 0.0;
    KeptTotalScaled(keys, raw, p, nodes, d);
    if total > 0.0 {
      DivAtMostOne(KeptTotal(keys, raw, nodes), total);
      if forall i :: 0 <= i < |keys| ==> keys[i] in nodes {
        assert KeptTotal(keys, p, nodes) == total / total;
        DivSelf(total);
      }
    }
  }

  /**
   * `1.0 - max(0.0, min(alpha, 1.0))`: the teleport probability clamped to [0, 1], turned
   * into the damping factor handed to PageRank.
   */
  function Damping(alpha: real): (r: real)
    ensures 0.0 <= r <= 1.0
    ensures 0.0 <= alpha <= 1.0 ==> r + alpha == 1.0
    ensures alpha <= 0.0 ==> r == 1.0
    ensures alpha >= 1.0 ==> r == 0.0
  {
    1.0 - MaxR(0.0, MinR(alpha, 1.0))
  }
}
