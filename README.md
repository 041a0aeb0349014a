# Lexica search core in Dafny

Lexica indexes an exported chat history (a ChatGPT-style `conversations.json`) and searches it.
This project models the back end's core in Dafny and proves properties of that model:

- **parse** (`parse.dfy`, module `Parse`): turns an export into numbered message rows, per-message
  metadata and per-conversation threads. It covers the code detector, text and role extraction, timestamp
  preference, the two message collectors (mapping graph and loose list), and the `Exporter` object
  whose `Emit` appends rows, metadata and thread ids.
- **index_bm25** (`bm25.dfy`, modules `Bm25`, `Bm25Index`, `Bm25Search`): the code-aware tokenizer,
  index construction (postings, document frequencies, document lengths, average length) and BM25 scoring,
  ranking and packaging.
- **semantic** (`semantic.dfy`, module `Semantic`): character-trigram hashing into a fixed number of
  buckets, normalisation, vector building and the dense top-k search.
- **graph** (`graph.dfy`, module `MessageGraph`): the reply-chain and same-topic edges between messages,
  the personalization (teleport) weights and the damping clamp given to PageRank.
- **rerank** (`ppr.dfy` module `Ppr`, `rerank.dfy` module `Rerank`): the personalised PageRank
  power iteration over the candidates, and the hybrid search. That search unions lexical and dense
  candidates, seeds the PageRank, computes the prior, z-normalises the signals, fuses them with fixed
  weights and ranks.
- **search** (`search.dfy`, module `Search`): the time-window filter, the filtered BM25 search with
  snippets, and the conversation window lookup.

Shared helpers:
- `common.dfy` (`Common`): options, Python slicing, sums.
- `strings.dfy` (`Strings`): ASCII lower-casing, split and join, and regex-style runs of a
  character class.
- `stable_sort.dfy` (`StableSort`): a stable sort by a total preorder. It stands for Python's
  `sorted`/`list.sort` and is proved sorted, a permutation and stable.

Operations that loop or mutate are methods proved against specification functions. The properties
are lemmas about those functions. Python dictionaries become `map`s. A sequence records the key
order where that order is observable.

## Model

| member | source | states |
|---|---|---|
| Bm25.Tokenize | lexica/backend/app/index_bm25.py:23-36 | the tokenizer loop yields exactly the specified token list: lower-cased `[a-z0-9_]+` words minus stop words, each followed by its non-stop sub-tokens that differ from it |
| Bm25.TokensAreSnakeOnly | lexica/backend/app/index_bm25.py:15-36 | since the text is lower-cased before splitting, the camel-case split never fires: the tokens are the words and their underscore pieces only |
| Bm25.TokensGood | lexica/backend/app/index_bm25.py:23-36 | every token is non-empty, made of lower-case letters, digits and `_`, and not a stop word |
| Bm25.SplitIdentPieces | lexica/backend/app/index_bm25.py:15-21 | `split_ident` pieces are non-empty and contain no underscore |
| Bm25Index.BuildIndex | lexica/backend/app/index_bm25.py:38-58 | the build loop produces N = number of rows, document lengths and their key order, postings and df that match the rows, and avg_len = total length / max(N, 1) |
| Bm25Index.IndexRows | lexica/backend/app/index_bm25.py:47-56 | the read loop counts the rows as N and leaves doc_len, its key order, the postings and df matching exactly the rows read |
| Bm25Index.AddPostings | lexica/backend/app/index_bm25.py:54-55 | each distinct term of one row gets one more posting (message, count in the row) at the end of its list, and every other term keeps its list |
| Bm25Index.PostingsShape | lexica/backend/app/index_bm25.py:53-56 | a term's posting list has exactly df entries, each with tf >= 1 |
| Bm25Index.PostingOfRow | lexica/backend/app/index_bm25.py:49-55 | a row containing a term contributes the posting (msg, count of the term in its tokens) at the position given by the earlier rows' df |
| Bm25Index.DfBounds | lexica/backend/app/index_bm25.py:56 | 1 <= df <= N for every term in the vocabulary |
| Bm25Index.IdfArgumentAboveOne | lexica/backend/app/index_bm25.py:60-62 | the argument of the logarithm in the idf exceeds 1, so every idf is positive |
| Bm25Index.TermFrequenciesSumToLength | lexica/backend/app/index_bm25.py:52-53 | the term frequencies of a document sum to its length |
| Bm25Index.AvgLenOfDistinctRows | lexica/backend/app/index_bm25.py:52-58 | with distinct message ids, the summed document lengths are the total token count |
| Bm25Index.BuiltIndexSearchable | lexica/backend/app/index_bm25.py:58-101 | an index the builder produces never makes the search divide by a zero average length |
| Bm25Search.Search | lexica/backend/app/index_bm25.py:75-117 | the search loops compute the specified ranked and packaged hits |
| Bm25Search.ScoreTermsSpec | lexica/backend/app/index_bm25.py:88-102 | a document is scored iff some query term has a posting for it and its length is positive; its score is the sum over query terms (with repeats) of the BM25 contributions |
| Bm25Search.TermsContributionNonNegative | lexica/backend/app/index_bm25.py:101-102 | with non-negative idf and k1 >= -1 every score is non-negative |
| Bm25Search.RankedElements | lexica/backend/app/index_bm25.py:105 | at most topk results, scores descending, ids distinct, each a matched document with its full score |
| Bm25Search.RankedIsTopK | lexica/backend/app/index_bm25.py:105 | no matched document left out outscores a returned one, and when fewer than topk are returned every matched document is returned |
| Bm25Search.SearchResultHits | lexica/backend/app/index_bm25.py:75-117 | blank query gives []; at most topk hits in descending score with distinct ids; each hit carries its score and the conv_id, title, role and ts of its metadata (absent when missing) |
| MessageGraph.BuildEdges | lexica/backend/app/graph.py:36-84 | the grouping, reply and same-topic loops produce the specified edge list |
| MessageGraph.ConversationFacts | lexica/backend/app/graph.py:53-58 | a conversation's list is its rows in file order, stably sorted by ts (missing ts as "") |
| MessageGraph.ReplyEdgesOverFacts | lexica/backend/app/graph.py:57-61 | every reply edge has weight 2.0 and joins two messages of the same conversation |
| MessageGraph.ChosenTopK | lexica/backend/app/graph.py:76-83 | at most k neighbours, in descending cosine; no qualifying neighbour left out beats a chosen one; fewer than k chosen means all qualifying ones |
| MessageGraph.CollectSims | lexica/backend/app/graph.py:76-81 | the inner loop keeps, in pool order, every other pool row whose cosine with row j reaches the threshold, with that cosine |
| MessageGraph.EmitTopicEdges | lexica/backend/app/graph.py:83-84 | one same_topic edge per chosen neighbour, in order, from the row's id to the neighbour's id with weight 1 + cosine |
| MessageGraph.TopicFromFacts | lexica/backend/app/graph.py:73-84 | each same-topic edge from a message goes to another message of its pool with weight 1 + cosine and cosine >= the minimum |
| MessageGraph.TopicEdgesOverFacts | lexica/backend/app/graph.py:64-84 | every same-topic edge has k > 0, distinct ends in one conversation, both ends among the vector ids (a message without a vector gets none), and weight >= 1 + min_cos |
| MessageGraph.NoTopicEdgesWhenOff | lexica/backend/app/graph.py:69-70 | with same_topic_k <= 0 there are no same-topic edges |
| MessageGraph.EdgesStartWithReplies | lexica/backend/app/graph.py:50-61 | the edge list starts with all reply edges, each a valid reply edge |
| MessageGraph.EdgesEndWithTopics | lexica/backend/app/graph.py:63-84 | after the reply edges come only same-topic edges, none when vectors are missing |
| MessageGraph.PrWeightAtLeast | lexica/backend/app/graph.py:123-132 | each raw teleport weight is at least 1e-6 and at most 0.100001 plus the recency boost |
| MessageGraph.RawWeights | lexica/backend/app/graph.py:123-132 | the raw weights have a key for each metadata id |
| MessageGraph.Personalization | lexica/backend/app/graph.py:123-136 | the weighting and normalising loops compute the specified personalization map |
| MessageGraph.PersonalizationBounds | lexica/backend/app/graph.py:134-136 | the map keeps exactly the graph's nodes among the ids; weights are positive, sum to at most 1, and to exactly 1 when every id is a node |
| MessageGraph.Damping | lexica/backend/app/graph.py:138-139 | the damping is in [0, 1], is 1 - alpha for alpha in [0, 1], and clamps outside |
| Ppr.MiniPpr | lexica/backend/app/rerank.py:58-96 | the array implementation computes the specified PageRank map |
| Ppr.MiniPprKeys | lexica/backend/app/rerank.py:63-96 | the result has exactly the candidates as keys |
| Ppr.MiniPprZero | lexica/backend/app/rerank.py:63-77 | no edges, or no edge between candidates, gives all zeros |
| Ppr.AddEntry | lexica/backend/app/rerank.py:71-75 | one kept edge appends its entry and adds its weight to its column's total, so col_w stays the column sums of the entries so far |
| Ppr.SeedVectorSpec | lexica/backend/app/rerank.py:85-88 | the seed vector is non-negative and sums to 1: clamped seeds over their sum, or uniform when no seed is positive |
| Ppr.NormalizedStochastic | lexica/backend/app/rerank.py:76-81 | after dividing by column weights every column sums to at most 1, to exactly 1 when all columns carry weight |
| Ppr.PropagateMass | lexica/backend/app/rerank.py:92-93 | the mass pushed along the edges is the score vector dotted with the column sums, for the accumulating update of "## Findings" |
| Ppr.IterateMass | lexica/backend/app/rerank.py:90-94 | the corrected iteration keeps scores non-negative with total at most 1, exactly 1 for a stochastic matrix |
| Ppr.MiniPprMass | lexica/backend/app/rerank.py:58-96 | with non-negative edge weights all scores are non-negative and sum to at most 1 |
| Ppr.MiniPprFullMass | lexica/backend/app/rerank.py:58-96 | with the corrected update, when every candidate has an out-edge to a candidate the scores sum to exactly 1 |
| Ppr.PropagateAsWrittenDistinctRows | lexica/backend/app/rerank.py:93 | the buffered `+=` agrees with accumulation when no two entries share a destination |
| Ppr.FindingLostMass | lexica/backend/app/rerank.py:93 | on the Findings example one step keeps mass 1 with accumulation but only 11/15 as written |
| Rerank.HybridSearch | lexica/backend/app/rerank.py:98-194 | the candidates are the union of both recall stages, each once, and the loops compute the specified ranked records |
| Rerank.Recall | lexica/backend/app/rerank.py:102-115 | the recall maps are the score maps of both stages and `id_meta` is their merge |
| Rerank.LastRecordsSpec | lexica/backend/app/rerank.py:104 | the dict comprehension keeps every listed id with its last record |
| Rerank.SetDefaultSpec | lexica/backend/app/rerank.py:111-112 | `setdefault` keeps existing entries and adds each new id with its first record |
| Rerank.IdMetaSources | lexica/backend/app/rerank.py:102-113 | `id_meta` covers both stages' ids: the last lexical record when there is one, else the first dense record |
| Rerank.CandidateSetSpec | lexica/backend/app/rerank.py:117-119 | a candidate is an id of either stage; no candidates iff both stages are empty; every candidate has metadata |
| Rerank.SeedSpec | lexica/backend/app/rerank.py:126-131 | the seed is non-negative, positive iff the BM25 score is, the BM25 score squared without a positive cosine, else BM25 times cosine |
| Rerank.SeedLoop | lexica/backend/app/rerank.py:127-131 | the seed loop computes the specified seed per candidate |
| Rerank.PriorBounds | lexica/backend/app/rerank.py:145-147 | the prior is in [0, 1], is 1 exactly for an assistant code message with a snippet of 800+ characters, and at most 0.6 without code |
| Rerank.PriorLoop | lexica/backend/app/rerank.py:135-147 | the prior and freshness loop computes the specified maps |
| Rerank.ZNormOrder | lexica/backend/app/rerank.py:13-21 | z-normalisation preserves order, strictly when the scores spread; zero when they do not |
| Rerank.ZNormCentered | lexica/backend/app/rerank.py:13-21 | the z-scores over the candidates sum to 0 |
| Rerank.ZNormConstant | lexica/backend/app/rerank.py:17-19 | constant scores normalise to all zeros |
| Rerank.ComputeSignals | lexica/backend/app/rerank.py:122-152 | the signal stage computes the specified seeds, PageRank, prior, freshness and z-scores |
| Rerank.FuseLoop | lexica/backend/app/rerank.py:161-170 | the fusion loop computes the specified weighted sum per candidate |
| Rerank.RecordLoop | lexica/backend/app/rerank.py:173-193 | the record loop builds one record per ranked id |
| Rerank.RankedIdsSpec | lexica/backend/app/rerank.py:172 | min(topk, n) distinct candidates in descending fused score; none left out scores higher |
| Rerank.HybridRanked | lexica/backend/app/rerank.py:161-193 | for any signals: min(topk, n) records with distinct candidate ids, each scored with that candidate's weighted fused score, in descending score order, explanation present iff requested, no candidate left out scores higher than a kept one |
| Rerank.HybridRecords | lexica/backend/app/rerank.py:173-193 | each record carries its candidate's metadata fields and its snippet when non-empty, else none: `meta.get("text")` is always absent here because neither recall stage's record has a `text` field |
| Rerank.SignalBounds | lexica/backend/app/rerank.py:133-147 | the prior stays in [0, 0.6]; PageRank scores are non-negative and sum to at most 1 |
| Semantic.CharTrigramsSpec | lexica/backend/app/semantic.py:11-13 | there is one trigram per character: the lower-cased character with its neighbours, padded with spaces |
| Semantic.Bucket | lexica/backend/app/semantic.py:18 | the bucket is below dims |
| Semantic.BucketIsRemainder | lexica/backend/app/semantic.py:18 | the bucket is the hash's non-negative remainder |
| Semantic.CountsSpec | lexica/backend/app/semantic.py:15-19 | each bucket holds the number of trigrams hashing into it |
| Semantic.CountsSum | lexica/backend/app/semantic.py:15-19 | the counts are non-negative and sum to the number of trigrams |
| Semantic.EmbeddingOfEmpty | lexica/backend/app/semantic.py:15-22 | the empty text embeds as the zero vector |
| Semantic.EmbeddingUnitNorm | lexica/backend/app/semantic.py:20-21 | a non-empty text has a positive norm and embeds as its counts over that norm, a unit vector |
| Semantic.Embed | lexica/backend/app/semantic.py:15-22 | the array loop computes the specified embedding |
| Semantic.BuildVecs | lexica/backend/app/semantic.py:24-44 | one id and one embedding per row, in order |
| Semantic.TopRowsSpec | lexica/backend/app/semantic.py:56 | min(topk, n) distinct row indices, most similar first, none left out more similar |
| Semantic.DenseRanked | lexica/backend/app/semantic.py:46-72 | min(topk, n) records in descending similarity, each a stored id with its similarity and metadata (snippet falling back to text); no row left out is more similar |
| Semantic.DenseSearch | lexica/backend/app/semantic.py:46-72 | embed, score and record loop compute the specified result |
| Semantic.DenseRecordLoop | lexica/backend/app/semantic.py:59-72 | one record per ranked row, in rank order: the stored id and its similarity with that id's metadata, the snippet falling back to the text |
| Search.Within | lexica/backend/app/search.py:8-26 | a timestamp passes iff it is empty, unparseable, or inside the closed interval of the bounds that are given and parse |
| Search.WithinIgnoresBadBound | lexica/backend/app/search.py:14-25 | an unparseable bound acts as if absent |
| Search.WithinSplit | lexica/backend/app/search.py:14-26 | the two bounds are independent tests |
| Search.TextByIdSpec | lexica/backend/app/search.py:48 | the text map has an entry iff some row has the id, holding the text of its last row |
| Search.SelectSpec | lexica/backend/app/search.py:51-64 | filtering keeps exactly the passing items, in order, each annotated |
| Search.SnippetResultSpec | lexica/backend/app/search.py:50-67 | at most max(k, 1) items, a prefix of the passing results, all of them when fewer; each passes the filters and has the text, else metadata snippet, else "" |
| Search.SelectedWithoutFilters | lexica/backend/app/search.py:51-64 | with no filter every BM25 result is kept in order with its snippet |
| Search.RoleCaseInsensitive | lexica/backend/app/search.py:57 | the role filter ignores letter case |
| Search.FilterHits | lexica/backend/app/search.py:51-67 | the loop with its skips and its break computes the specified prefix |
| Search.SearchWithSnippets | lexica/backend/app/search.py:38-67 | filters the top 200 BM25 hits as specified |
| Search.ConvRowsSpec | lexica/backend/app/search.py:86-92 | the fallback keeps exactly the rows of the conversation |
| Search.SortedConvRows | lexica/backend/app/search.py:93 | sorted by ascending msg, same rows |
| Search.FindMsgSpec | lexica/backend/app/search.py:96 | the centre index is the first row with that id; none iff no row has it |
| Search.WindowSpec | lexica/backend/app/search.py:94-101 | no centre gives all rows; a missing centre gives the first 2w+1; otherwise the contiguous slice [max(0, i-w), min(n, i+w+1)) containing the centre, of length at most 2w+1 and exactly 2w+1 away from the ends |
| Search.WindowIsSlice | lexica/backend/app/search.py:94-101 | every window is one contiguous slice |
| Search.GetConversationSpec | lexica/backend/app/search.py:86-101 | the messages all belong to the conversation and ascend by id; with no centre they are all its rows, equal ids in file order |
| Parse.InlineScanSpec | lexica/backend/app/parse.py:13 | the scanner finds a backtick pair around a non-empty backtick-free run iff one exists |
| Parse.HasCode | lexica/backend/app/parse.py:12-18 | code iff the text contains a fence or an inline code span |
| Parse.TextParts | lexica/backend/app/parse.py:33-34 | the kept parts are non-blank strings |
| Parse.MessageTextOfParts | lexica/backend/app/parse.py:21-35 | with a parts list the text is blank iff no part is kept, and splits back into the kept parts when they hold no newline |
| Parse.MessageTextFallback | lexica/backend/app/parse.py:36-43 | without a parts list the text is content.text, else the message's text, else "" |
| Parse.Role | lexica/backend/app/parse.py:46-49 | the role is truthy: a truthy author role wins, else a truthy message role, else "assistant" |
| Parse.NormalRole | lexica/backend/app/parse.py:92 | the stored role is user or assistant, user iff the role is "user" |
| Parse.Seconds | lexica/backend/app/parse.py:52-68 | the timestamp is message create_time, else update_time, else conversation create_time, else now |
| Parse.Entry | lexica/backend/app/parse.py:81-100 | a message is dropped iff it is system or blank; otherwise its role is normalised and its text and timestamps are kept |
| Parse.FalsyDropped | lexica/backend/app/parse.py:81-83 | a missing or empty message is dropped |
| Parse.KeptSpec | lexica/backend/app/parse.py:80-100 | the collected rows are exactly the entries of kept messages |
| Parse.CollectedSpec | lexica/backend/app/parse.py:101-103 | a permutation of the kept entries with valid roles and non-blank text, sorted by (ts, user first), ties in input order |
| Parse.Values | lexica/backend/app/parse.py:78-80 | `mapping.values()` of a decoded object: one value per distinct key, in first-binding order, each the value its last binding gives |
| Parse.MappingDuplicateKey | lexica/backend/app/parse.py:78-80 | a mapping key bound twice yields one visited message, the later one |
| Parse.CollectFromMapping | lexica/backend/app/parse.py:73-103 | the mapping loop collects the specified rows |
| Parse.CollectMsgsLoose | lexica/backend/app/parse.py:106-130 | the loose loop collects the specified rows from messages or items |
| Parse.CollectOne | lexica/backend/app/parse.py:112-128 | one message yields its entry or nothing |
| Parse.WordCountSpec | lexica/backend/app/parse.py:223 | the word count is at most the text length and 0 iff no lower-case letter or digit occurs |
| Parse.IdsOfNewRows | lexica/backend/app/parse.py:219-229 | emitting appends consecutive ids from the counter to that conversation's ids only |
| Parse.ConvIdOf | lexica/backend/app/parse.py:239 | without a truthy id or conversation_id the id is `c_` and the 1-based index |
| Parse.ExportRowsSpec | lexica/backend/app/parse.py:194-244 | one row per kept message of every conversation, ids 0, 1, 2, ..., has_code computed from non-blank text |
| Parse.Exporter.constructor | lexica/backend/app/parse.py:188-192 | starts with no rows, metadata or threads |
| Parse.Exporter.AppendRows | lexica/backend/app/parse.py:197-227 | appends one row and one metadata entry per message, numbered from the counter |
| Parse.Exporter.AddRow | lexica/backend/app/parse.py:198-227 | one message takes the next id, appends its row and its derived metadata entry, and keeps ids consecutive and metadata one per row |
| Parse.Exporter.Emit | lexica/backend/app/parse.py:194-229 | appends the rows and extends the conversation's thread in order, keeping ids consecutive, metadata one per row, threads equal to the ids per conversation |
| Parse.ExtendThreads | lexica/backend/app/parse.py:228-229 | extending a thread keeps threads equal to each conversation's ids |
| Parse.ParseExport | lexica/backend/app/parse.py:175-249 | every conversation is counted; the rows are the specified export; the message count is the number of metadata entries |

## Left out

- File I/O (`rows.jsonl`, `meta.json`, `index.json`, `vecs.npz`, `edges.jsonl`, zip reading, writing artifacts), `main.py` and the HTTP layer: inputs are values, outputs are returned.
- `_iter_conversations_from_zip` and `_iter_conversations_from_json`: the export is given as the sequence of conversations they yield.
- Floating point: reals are exact; `float32` rounding in the dense vectors is not modelled.
- `math.log` (idf), `math.exp` (freshness and recency), `np.linalg.norm` and the standard deviation's square root: the idf map and the freshness and recency functions are inputs, and `sqrt` is a function parameter. Semantic.EmbeddingUnitNorm assumes `sqrt` is an exact root.
- Python's `hash` of a string is an abstract function parameter; it is salted per process.
- `networkx.pagerank` (graph.py:140) is library code. Only its inputs are modelled, namely the personalization map and the damping. Collapsing parallel edges in `DiGraph` is part of that library.
- The clock: `time.time()` is a single `now` parameter. `time.strftime` is the `iso` parameter and `str()` of an id is the `render` parameter. `datetime.fromisoformat` is the `parse` parameter, returning an instant or nothing.
- Search.Within: one `parse` stands for both calls of `fromisoformat`. Comparing a timezone-aware timestamp with a naive bound raises in the source and the bound is then ignored; the model does not distinguish naive from aware values.
- Exception fallbacks are optional inputs. A failed dense search is `None` in `Rerank.Inputs`, and malformed JSON lines are simply not present.
- The `threads.json` branch of `get_conversation` (search.py:71-84) is not part of this model; the `rows.jsonl` fallback is.
- `str.lower()` is modelled on ASCII letters only.
- `np.argsort` (semantic.py:56) is not stable. Semantic.TopRows breaks ties in row order, which is one of the orders it may return.
- Python set iteration order (rerank.py:117) is unspecified. Rerank.HybridSearch picks some order and returns it alongside the records.
- JSON `.get` on a value that is not an object is read as a missing key, where the source raises. A `messages`/`items` value that is not a list is treated as empty, where the source iterates it. A `parts` value that is not a list falls back to `content.text` and then `msg.text`, as parse.py:33-43 does.
- Parse.CollectFromMapping: a truthy `mapping` that is not an object (a list, say) collects nothing. Parse.Values gives it no values, where `mapping.values()` at parse.py:80 raises AttributeError and aborts `parse_export`, since the conversation loop at parse.py:236-243 has no `try`.
- Parse.Entry: a truthy role that is not a string (a list or an object) is kept and normalised to "assistant". In the source, `role in SYSTEM_ROLES` at parse.py:85 and parse.py:114 raises TypeError for an unhashable value and aborts `parse_export`. The model has no failing outcome for a conversation.
- Semantic.DenseSearch requires `dims > 0` and a stored matrix of that width, as `vecs.npz` written by `build_vecs` is. `np.stack` over zero rows raises in the source, and that case is not modelled.
- In `build_edges` the `M` map (graph.py:40-48) is never read, so it is not modelled.
- Search.WindowSpec and Search.GetConversationSpec are stated for a non-negative window. Search.Window itself follows Python slicing for any window.
- PropagateMass: conservation of mass is proved for the accumulating update (`np.add.at`), the corrected behaviour in "## Findings". The buffered `Ar[A[0]] += …` at rerank.py:93 keeps it only when no two kept edges share a destination (Ppr.PropagateAsWrittenDistinctRows); Ppr.FindingLostMass shows the loss otherwise.
- IterateMass: "exactly 1 for a stochastic matrix" holds for the corrected iteration only. No mass bound is proved for the buffered iteration as written at rerank.py:90-94.
- MiniPprFullMass: "sum exactly 1" holds for the corrected update only. As written, rerank.py:58-96 gives 11/15 on the "## Findings" input.
- Ppr.Propagate, Ppr.Iterate, Ppr.MiniPprResult, Ppr.MiniPpr, Rerank.PprRaw, Rerank.ComputeSignals and Rerank.HybridSearch use the corrected, accumulating update from "## Findings", not the buffered `+=` of rerank.py:93. Their results differ from the source whenever two kept edges share a destination. The as-written step is Ppr.PropagateAsWritten.
- Rerank.SignalBounds: the lexical and dense records never carry `has_code`, so the 0.40 prior term never applies in `hybrid_search`. The model does the same.

## Findings

| source | as written | input that shows it | evidently intended | confidence | as-written member | corrected member |
|---|---|---|---|---|---|---|
| lexica/backend/app/rerank.py:93 | `Ar[A[0]] += A[2] * r[A[1]]` is a buffered fancy-index add, so when two edges share a destination only the last contribution survives | candidates [1, 2, 3], edges 1→3, 2→3, 3→1 (weight 1), no seeds, alpha 0.2, one iteration: the scores sum to 11/15 instead of 1 | every edge's contribution accumulates (`np.add.at`), so the scores keep total mass 1 | not executed | Ppr.PropagateAsWritten, Ppr.FindingLostMass | Ppr.Propagate, Ppr.PropagateMass |
