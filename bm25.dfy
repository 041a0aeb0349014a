/**
 * The lexical index of `index_bm25.py`: the code-aware tokenizer, the table-building pass
 * that fills postings, document frequencies and document lengths, and the BM25 query.
 * The artifacts the Python code writes as JSON files are the fields of `Index`; the idf
 * table, computed with `math.log`, is an input of the query.
 */
module Bm25 {
  import opened Common
  import opened Strings
  import StableSort

  /** The fixed stop-word set `STOP`. */
  const Stop: set<string> := {
    "a", "an", "and", "are", "as", "at", "be", "by", "for", "from", "has", "have", "i", "in",
    "is", "it", "its", "of", "on", "or", "that", "the", "to", "was", "were", "will", "with",
    "you", "your"
  }

  // ---------------------------------------------------------------------------
  // split_ident

  /** `_CAMEL.sub(' ', p)`: a space before every upper-case letter that does not start `p`. */
  function CamelSub(p: string): string
  {
    if p == [] then [] else [p[0]] + SpaceBeforeUpper(p[1..])
  }

  function SpaceBeforeUpper(s: string): string
  {
    if s == [] then [] else (if IsUpper(s[0]) then [' ', s[0]] else [s[0]]) + SpaceBeforeUpper(s[1..])
  }

  /** `res.extend(_CAMEL.sub(' ', p).split())` over the `_`-separated parts. */
  function CamelPieces(parts: seq<string>): seq<string>
  {
    if parts == [] then [] else Runs(CamelSub(parts[0]), NotSpace) + CamelPieces(parts[1..])
  }

  function NonEmpty(ps: seq<string>): seq<string>
  {
    if ps == [] then [] else (if ps[0] != [] then [ps[0]] else []) + NonEmpty(ps[1..])
  }

  /** `split_ident(tok)`: snake_case, then camelCase pieces, empty ones dropped. */
  function SplitIdent(tok: string): seq<string>
  {
    NonEmpty(CamelPieces(SplitOn(tok, '_')))
  }

  lemma {:induction false} SpaceBeforeUpperKeeps(s: string, P: char -> bool)
    requires forall i :: 0 <= i < |s| ==> P(s[i])
    ensures forall i :: 0 <= i < |SpaceBeforeUpper(s)| ==> P(SpaceBeforeUpper(s)[i]) || SpaceBeforeUpper(s)[i] == ' '
  {
    if s != [] {
      SpaceBeforeUpperKeeps(s[1..], P);
      var h: string := if IsUpper(s[0]) then [' ', s[0]] else [s[0]];
      assert SpaceBeforeUpper(s) == h + SpaceBeforeUpper(s[1..]);
    }
  }

  lemma {:induction false} SpaceBeforeUpperIdentity(s: string)
    requires HasNoUpper(s)
    ensures SpaceBeforeUpper(s) == s
  {
    if s != [] {
      SpaceBeforeUpperIdentity(s[1..]);
      assert [s[0]] + s[1..] == s;
    }
  }

  lemma {:induction false} NonEmptyAppend(a: seq<string>, b: seq<string>)
    ensures NonEmpty(a + b) == NonEmpty(a) + NonEmpty(b)
  {
    if a == [] {
      assert a + b == b;
    } else {
      assert (a + b)[1..] == a[1..] + b;
      NonEmptyAppend(a[1..], b);
    }
  }

  /** Every piece `split_ident` returns is non-empty and free of `_`, whatever the token. */
  lemma {:induction false} SplitIdentPieces(tok: string)
    ensures forall k :: 0 <= k < |SplitIdent(tok)| ==> SplitIdent(tok)[k] != []
    ensures forall k, j :: 0 <= k < |SplitIdent(tok)| && 0 <= j < |SplitIdent(tok)[k]| ==> SplitIdent(tok)[k][j] != '_'
  {
    var parts := SplitOn(tok, '_');
    SplitOnPiecesFree(tok, '_');
    CamelPiecesNoUnderscore(parts);
    NonEmptyKeeps(CamelPieces(parts));
  }

  lemma {:induction false} CamelPiecesNoUnderscore(parts: seq<string>)
    requires forall k, j :: 0 <= k < |parts| && 0 <= j < |parts[k]| ==> parts[k][j] != '_'
    ensures forall k, j :: 0 <= k < |CamelPieces(parts)| && 0 <= j < |CamelPieces(parts)[k]| ==> CamelPieces(parts)[k][j] != '_'
  {
    if parts != [] {
      CamelPiecesNoUnderscore(parts[1..]);
      var p := parts[0];
      var cs := CamelSub(p);
      if p != [] {
        SpaceBeforeUpperKeeps(p[1..], c => c != '_');
        assert cs == [p[0]] + SpaceBeforeUpper(p[1..]);
        assert forall i :: 0 <= i < |cs| ==> cs[i] != '_' by {
          forall i | 0 <= i < |cs| ensures cs[i] != '_' {
            if i > 0 { assert cs[i] == SpaceBeforeUpper(p[1..])[i - 1]; }
          }
        }
      }
      RunsKeep(cs, NotSpace, c => c != '_');
      var r := CamelPieces(parts);
      var a := Runs(cs, NotSpace);
      assert r == a + CamelPieces(parts[1..]);
      forall k, j | 0 <= k < |r| && 0 <= j < |r[k]| ensures r[k][j] != '_' {
        if k >= |a| { assert r[k] == CamelPieces(parts[1..])[k - |a|]; }
      }
    }
  }

  lemma {:induction false} NonEmptyKeeps(ps: seq<string>)
    ensures forall k :: 0 <= k < |NonEmpty(ps)| ==> NonEmpty(ps)[k] in ps && NonEmpty(ps)[k] != []
  {
    if ps != [] {
      NonEmptyKeeps(ps[1..]);
    }
  }

  predicate LowerWord(t: string) { forall i :: 0 <= i < |t| ==> IsLowerAlnum(t[i]) || t[i] == '_' }

  lemma {:induction false} CamelPiecesOfLower(parts: seq<string>)
    requires forall k :: 0 <= k < |parts| ==> LowerWord(parts[k])
    ensures CamelPieces(parts) == NonEmpty(parts)
  {
    if parts != [] {
      CamelPiecesOfLower(parts[1..]);
      var p := parts[0];
      if p != [] {
        SpaceBeforeUpperIdentity(p[1..]);
        assert CamelSub(p) == p;
      }
      RunsOfRun(CamelSub(p), NotSpace);
    }
  }

  lemma {:induction false} NonEmptyIdempotent(ps: seq<string>)
    ensures NonEmpty(NonEmpty(ps)) == NonEmpty(ps)
  {
    if ps != [] {
      NonEmptyIdempotent(ps[1..]);
      var h: seq<string> := if ps[0] != [] then [ps[0]] else [];
      NonEmptyAppend(h, NonEmpty(ps[1..]));
    }
  }

  /**
   * On a lower-case token (all `tokenize` ever passes) the camelCase rule never fires:
   * `split_ident` returns exactly the non-empty `_`-separated parts, in order.
   */
  lemma {:induction false} SplitIdentOfLowerWord(t: string)
    requires LowerWord(t)
    ensures SplitIdent(t) == NonEmpty(SplitOn(t, '_'))
  {
    var parts := SplitOn(t, '_');
    SplitOnPiecesKeep(t, '_', c => IsLowerAlnum(c) || c == '_');
    CamelPiecesOfLower(parts);
    NonEmptyIdempotent(parts);
  }

  // ---------------------------------------------------------------------------
  // tokenize

  /** The sub-tokens the inner loop of `tokenize` appends for word `t`. */
  function SubTokens(subs: seq<string>, t: string): seq<string>
  {
    if subs == [] then []
    else
      var sub := subs[|subs| - 1];
      SubTokens(subs[..|subs| - 1], t) + (if sub != t && sub !in Stop then [Lower(sub)] else [])
  }

  /** What one word contributes: nothing for a stop word, else itself and its new sub-tokens. */
  function WordTokens(t: string): seq<string>
  {
    if t in Stop then [] else [t] + SubTokens(SplitIdent(t), t)
  }

  function TokensOfWords(ws: seq<string>): seq<string>
  {
    if ws == [] then [] else TokensOfWords(ws[..|ws| - 1]) + WordTokens(ws[|ws| - 1])
  }

  /** `_WORDS.findall(text.lower())`. */
  function Words(text: string): seq<string>
  {
    Runs(Lower(text), IsWordChar)
  }

  /** The tokens `tokenize(text)` returns. */
  function Tokens(text: string): seq<string>
  {
    if text == [] then [] else TokensOfWords(Words(text))
  }

  /** `tokenize`: the word loop; the sub-token loop is `NewSubTokens`. */
  method Tokenize(text: string) returns (out: seq<string>)
    ensures out == Tokens(text)
  {
    if text == [] {
      return [];
    }
    var toks := Runs(Lower(text), IsWordChar);
    out := [];
    var i := 0;
    while i < |toks|
      invariant 0 <= i <= |toks|
      invariant out == TokensOfWords(toks[..i])
    {
      var t := toks[i];
      assert toks[..i + 1][..i] == toks[..i];
      if t !in Stop {
        var extra := NewSubTokens(t, SplitIdent(t));
        out := out + ([t] + extra);
      }
      i := i + 1;
    }
    assert toks[..i] == toks;
  }

  /** The inner loop of `tokenize`: the sub-tokens that differ from `t` and are not stop words. */
  method NewSubTokens(t: string, subs: seq<string>) returns (extra: seq<string>)
    ensures extra == SubTokens(subs, t)
  {
    extra := [];
    var j := 0;
    while j < |subs|
      invariant 0 <= j <= |subs|
      invariant extra == SubTokens(subs[..j], t)
    {
      var sub := subs[j];
      assert subs[..j + 1][..j] == subs[..j];
      if sub != t && sub !in Stop {
        extra := extra + [Lower(sub)];
      }
      j := j + 1;
    }
    assert subs[..j] == subs;
  }

  // ---------------------------------------------------------------------------
  // What the tokenizer promises

  /** The reference reading of the tokenizer once `text.lower()` is taken into account: words, then their `_` parts. */
  function SnakeParts(ps: seq<string>, t: string): seq<string>
  {
    if ps == [] then []
    else SnakeParts(ps[..|ps| - 1], t) + (if ps[|ps| - 1] != t && ps[|ps| - 1] !in Stop then [ps[|ps| - 1]] else [])
  }

  function SnakeTokens(t: string): seq<string>
  {
    if t in Stop then [] else [t] + SnakeParts(NonEmpty(SplitOn(t, '_')), t)
  }

  function SnakeTokensOfWords(ws: seq<string>): seq<string>
  {
    if ws == [] then [] else SnakeTokensOfWords(ws[..|ws| - 1]) + SnakeTokens(ws[|ws| - 1])
  }

  lemma {:induction false} SubTokensOfLower(subs: seq<string>, t: string)
    requires forall k :: 0 <= k < |subs| ==> LowerWord(subs[k])
    ensures SubTokens(subs, t) == SnakeParts(subs, t)
  {
    if subs != [] {
      SubTokensOfLower(subs[..|subs| - 1], t);
      var sub := subs[|subs| - 1];
      LowerOfLowercase(sub);
    }
  }

  lemma {:induction false} WordTokensOfLower(t: string)
    requires LowerWord(t)
    ensures WordTokens(t) == SnakeTokens(t)
  {
    if t !in Stop {
      SplitIdentOfLowerWord(t);
      var parts := SplitOn(t, '_');
      SplitOnPiecesKeep(t, '_', c => IsLowerAlnum(c) || c == '_');
      NonEmptyKeeps(parts);
      SubTokensOfLower(NonEmpty(parts), t);
    }
  }

  lemma {:induction false} WordsAreLower(text: string)
    ensures forall k :: 0 <= k < |Words(text)| ==> LowerWord(Words(text)[k]) && Words(text)[k] != []
  {
    var low := Lower(text);
    RunsWellFormed(low, IsWordChar);
    forall k | 0 <= k < |Words(text)| ensures LowerWord(Words(text)[k]) {
      var w := Words(text)[k];
      forall j | 0 <= j < |w| ensures IsLowerAlnum(w[j]) || w[j] == '_' {
        RunsKeep(low, IsWordChar, c => !IsUpper(c));
      }
    }
  }

  lemma {:induction false} TokensOfLowerWords(ws: seq<string>)
    requires forall k :: 0 <= k < |ws| ==> LowerWord(ws[k])
    ensures TokensOfWords(ws) == SnakeTokensOfWords(ws)
  {
    if ws != [] {
      TokensOfLowerWords(ws[..|ws| - 1]);
      WordTokensOfLower(ws[|ws| - 1]);
    }
  }

  /**
   * Because `tokenize` lower-cases before it splits, only `_` ever yields sub-tokens:
   * the output is, word by word, the word (unless a stop word) followed by those of its
   * non-empty `_`-parts that differ from it and are not stop words.
   */
  lemma {:induction false} TokensAreSnakeOnly(text: string)
    ensures Tokens(text) == SnakeTokensOfWords(Words(text))
  {
    if text != [] {
      WordsAreLower(text);
      TokensOfLowerWords(Words(text));
    }
  }

  /** A word without `_` contributes exactly itself (or nothing, if it is a stop word). */
  lemma {:induction false} SnakeTokensOfPlainWord(t: string)
    requires t != [] && forall i :: 0 <= i < |t| ==> t[i] != '_'
    ensures SnakeTokens(t) == if t in Stop then [] else [t]
  {
    SplitOnFree(t, '_');
    assert NonEmpty([t]) == [t];
    assert SnakeParts([t], t) == [];
  }

  predicate GoodToken(tok: string)
  {
    tok != [] && LowerWord(tok) && tok !in Stop
  }

  lemma {:induction false} SnakePartsGood(ps: seq<string>, t: string)
    requires forall k :: 0 <= k < |ps| ==> ps[k] != [] && LowerWord(ps[k])
    ensures forall k :: 0 <= k < |SnakeParts(ps, t)| ==> GoodToken(SnakeParts(ps, t)[k])
  {
    if ps != [] {
      SnakePartsGood(ps[..|ps| - 1], t);
    }
  }

  lemma {:induction false} SnakeTokensGood(t: string)
    requires t != [] && LowerWord(t)
    ensures forall k :: 0 <= k < |SnakeTokens(t)| ==> GoodToken(SnakeTokens(t)[k])
  {
    if t !in Stop {
      var parts := SplitOn(t, '_');
      SplitOnPiecesKeep(t, '_', c => IsLowerAlnum(c) || c == '_');
      NonEmptyKeeps(parts);
      SnakePartsGood(NonEmpty(parts), t);
    }
  }

  lemma {:induction false} SnakeTokensOfWordsGood(ws: seq<string>)
    requires forall k :: 0 <= k < |ws| ==> ws[k] != [] && LowerWord(ws[k])
    ensures forall k :: 0 <= k < |SnakeTokensOfWords(ws)| ==> GoodToken(SnakeTokensOfWords(ws)[k])
  {
    if ws != [] {
      SnakeTokensOfWordsGood(ws[..|ws| - 1]);
      SnakeTokensGood(ws[|ws| - 1]);
    }
  }

  /** Every token is non-empty, made of `[a-z0-9_]`, and not a stop word. */
  lemma {:induction false} TokensGood(text: string)
    ensures forall k :: 0 <= k < |Tokens(text)| ==> GoodToken(Tokens(text)[k])
  {
    TokensAreSnakeOnly(text);
    WordsAreLower(text);
    SnakeTokensOfWordsGood(Words(text));
  }
}

module Bm25Index {
  import opened Common
  import opened Bm25

  /** One line of `rows.jsonl`: the message id and its text (a missing text reads as ""). */
  datatype Row = Row(msg: int, text: string)

  /** One entry `(msg_id, c)` of a term's postings list. */
  datatype Posting = Posting(msg: int, tf: nat)

  /** The artifacts `build_bm25` writes: `index.json`, `doclen.json` and `stats.json`, plus the document-frequency counter. */
  datatype Index = Index(
    postings: map<string, seq<Posting>>,
    df: map<string, nat>,
    docLen: map<int, nat>,
    docOrder: seq<int>,   // key order of the `doc_len` dict
    n: nat,
    avgLen: real,
    k1: real,
    b: real)

  function RowTokens(r: Row): seq<string> { Tokens(r.text) }

  /** The distinct terms of `toks` in order of first occurrence (the key order of `Counter(toks)`). */
  function DistinctTerms(toks: seq<string>): seq<string>
  {
    if toks == [] then []
    else
      var d := DistinctTerms(toks[..|toks| - 1]);
      if toks[|toks| - 1] in d then d else d + [toks[|toks| - 1]]
  }

  /** Reference definition of a term's postings: one `(msg, count)` per row holding the term, in row order. */
  function PostingsFor(rows: seq<Row>, t: string): seq<Posting>
  {
    if rows == [] then []
    else
      var r := rows[|rows| - 1];
      var c := Count(RowTokens(r), t);
      PostingsFor(rows[..|rows| - 1], t) + (if c > 0 then [Posting(r.msg, c)] else [])
  }

  /** Number of rows whose tokens contain `t`. */
  function DfFor(rows: seq<Row>, t: string): nat
  {
    if rows == [] then 0
    else DfFor(rows[..|rows| - 1], t) + (if t in RowTokens(rows[|rows| - 1]) then 1 else 0)
  }

  /** `t` is a term of some row. */
  predicate InVocabulary(rows: seq<Row>, t: string)
  {
    rows != [] && (InVocabulary(rows[..|rows| - 1], t) || t in RowTokens(rows[|rows| - 1]))
  }

  /** `doc_len`: the token count of the last row read for each message id. */
  function DocLens(rows: seq<Row>): map<int, nat>
  {
    if rows == [] then map[]
    else DocLens(rows[..|rows| - 1])[rows[|rows| - 1].msg := |RowTokens(rows[|rows| - 1])|]
  }

  /** Message ids in order of first appearance (the dict's key order). */
  function DocOrder(rows: seq<Row>): seq<int>
  {
    if rows == [] then []
    else
      var d := DocOrder(rows[..|rows| - 1]);
      if rows[|rows| - 1].msg in d then d else d + [rows[|rows| - 1].msg]
  }

  /** `sum(doc_len.values())`, in key order. */
  function LenTotal(order: seq<int>, lens: map<int, nat>): nat
    requires forall k :: 0 <= k < |order| ==> order[k] in lens
  {
    if order == [] then 0 else LenTotal(order[..|order| - 1], lens) + lens[order[|order| - 1]]
  }

  lemma {:induction false} DocOrderKeys(rows: seq<Row>)
    ensures forall m :: m in DocOrder(rows) <==> m in DocLens(rows)
    ensures Distinct(DocOrder(rows))
  {
    if rows != [] { DocOrderKeys(rows[..|rows| - 1]); }
  }

  lemma {:induction false} CountPositive(s: seq<string>, x: string)
    ensures Count(s, x) > 0 <==> x in s
  {
    if s != [] {
      CountPositive(s[..|s| - 1], x);
      assert s == s[..|s| - 1] + [s[|s| - 1]];
    }
  }

  lemma {:induction false} DistinctTermsSpec(toks: seq<string>)
    ensures forall t :: t in DistinctTerms(toks) <==> t in toks
    ensures Distinct(DistinctTerms(toks))
  {
    if toks != [] {
      DistinctTermsSpec(toks[..|toks| - 1]);
      assert toks == toks[..|toks| - 1] + [toks[|toks| - 1]];
    }
  }

  lemma {:induction false} OutsideVocabulary(rows: seq<Row>, t: string)
    requires !InVocabulary(rows, t)
    ensures PostingsFor(rows, t) == [] && DfFor(rows, t) == 0
  {
    if rows != [] {
      OutsideVocabulary(rows[..|rows| - 1], t);
      CountPositive(RowTokens(rows[|rows| - 1]), t);
    }
  }

  /** The postings and df tables agree with the reference definitions for `rows`. */
  ghost predicate TablesMatch(postings: map<string, seq<Posting>>, df: map<string, nat>, rows: seq<Row>)
  {
    && (forall t :: t in postings <==> InVocabulary(rows, t))
    && (forall t :: t in df <==> InVocabulary(rows, t))
    && (forall t :: t in postings ==> postings[t] == PostingsFor(rows, t))
    && (forall t :: t in df ==> df[t] == DfFor(rows, t))
  }

  /** Appending `(msg, c)` for every term of one row and bumping its df keeps the tables in step with the rows read. */
  lemma {:induction false} RowStep(postings: map<string, seq<Posting>>, df: map<string, nat>, rows: seq<Row>,
                postings': map<string, seq<Posting>>, df': map<string, nat>, row: Row)
    requires TablesMatch(postings, df, rows)
    requires forall t :: t in postings' <==> t in postings || t in RowTokens(row)
    requires forall t :: t in df' <==> t in df || t in RowTokens(row)
    requires forall t :: t in postings' ==>
      postings'[t] == (if t in postings then postings[t] else []) + (if t in RowTokens(row) then [Posting(row.msg, Count(RowTokens(row), t))] else [])
    requires forall t :: t in df' ==>
      df'[t] == (if t in df then df[t] else 0) + (if t in RowTokens(row) then 1 else 0)
    ensures TablesMatch(postings', df', rows + [row])
  {
    var rows' := rows + [row];
    assert rows'[..|rows'| - 1] == rows;
    forall t | t in postings' ensures postings'[t] == PostingsFor(rows', t) {
      CountPositive(RowTokens(row), t);
      if !InVocabulary(rows, t) { OutsideVocabulary(rows, t); }
    }
    forall t | t in df' ensures df'[t] == DfFor(rows', t) {
      if !InVocabulary(rows, t) { OutsideVocabulary(rows, t); }
    }
  }

  /** `for term, c in tf.items(): postings[term].append((msg_id, c))` for one row. */
  /** One term of the loop of `AddPostings`: its posting is appended, every other list is kept. */
  lemma {:induction false} AddPostingStep(postings: map<string, seq<Posting>>, cur: map<string, seq<Posting>>, msg: int, toks: seq<string>,
                       done: seq<string>, term: string)
    requires term !in done
    requires forall t :: t in cur <==> t in postings || t in done
    requires forall t :: t in cur ==>
      cur[t] == (if t in postings then postings[t] else []) + (if t in done then [Posting(msg, Count(toks, t))] else [])
    ensures var next := cur[term := (if term in cur then cur[term] else []) + [Posting(msg, Count(toks, term))]];
      && (forall t :: t in next <==> t in postings || t in done + [term])
      && (forall t :: t in next ==>
            next[t] == (if t in postings then postings[t] else []) + (if t in done + [term] then [Posting(msg, Count(toks, t))] else []))
  {
  }

  method AddPostings(postings: map<string, seq<Posting>>, msg: int, toks: seq<string>)
    returns (postings': map<string, seq<Posting>>)
    ensures forall t :: t in postings' <==> t in postings || t in toks
    ensures forall t :: t in postings' ==>
      postings'[t] == (if t in postings then postings[t] else []) + (if t in toks then [Posting(msg, Count(toks, t))] else [])
  {
    var terms := DistinctTerms(toks);
    DistinctTermsSpec(toks);
    postings' := postings;
    var j := 0;
    while j < |terms|
      invariant 0 <= j <= |terms|
      invariant forall t :: t in postings' <==> t in postings || t in terms[..j]
      invariant forall t :: t in postings' ==>
        postings'[t] == (if t in postings then postings[t] else []) + (if t in terms[..j] then [Posting(msg, Count(toks, t))] else [])
    {
      var term := terms[j];
      assert term !in terms[..j];
      assert terms[..j + 1] == terms[..j] + [term];
      var before := if term in postings' then postings'[term] else [];
      AddPostingStep(postings, postings', msg, toks, terms[..j], term);
      postings' := postings'[term := before + [Posting(msg, Count(toks, term))]];
      j := j + 1;
    }
    assert terms[..j] == terms;
  }

  /** `df.update(tf.keys())`: every distinct term of the row counts once more. */
  method BumpDf(df: map<string, nat>, toks: seq<string>) returns (df': map<string, nat>)
    ensures forall t :: t in df' <==> t in df || t in toks
    ensures forall t :: t in df' ==> df'[t] == (if t in df then df[t] else 0) + (if t in toks then 1 else 0)
  {
    var terms := DistinctTerms(toks);
    DistinctTermsSpec(toks);
    df' := df;
    var j := 0;
    while j < |terms|
      invariant 0 <= j <= |terms|
      invariant forall t :: t in df' <==> t in df || t in terms[..j]
      invariant forall t :: t in df' ==> df'[t] == (if t in df then df[t] else 0) + (if t in terms[..j] then 1 else 0)
    {
      var term := terms[j];
      assert term !in terms[..j];
      assert terms[..j + 1] == terms[..j] + [term];
      var before := if term in df' then df'[term] else 0;
      df' := df'[term := before + 1];
      j := j + 1;
    }
    assert terms[..j] == terms;
  }

  /** The body of the row loop of `build_bm25`: tokenize, record the length, add postings and df. */
  method IndexRow(postings: map<string, seq<Posting>>, df: map<string, nat>, docLen: map<int, nat>, docOrder: seq<int>,
                  ghost done: seq<Row>, row: Row)
    returns (postings': map<string, seq<Posting>>, df': map<string, nat>, docLen': map<int, nat>, docOrder': seq<int>)
    requires docLen == DocLens(done) && docOrder == DocOrder(done)
    requires TablesMatch(postings, df, done)
    ensures docLen' == DocLens(done + [row]) && docOrder' == DocOrder(done + [row])
    ensures TablesMatch(postings', df', done + [row])
  {
    var rows' := done + [row];
    assert rows'[..|rows'| - 1] == done;
    var toks := Tokenize(row.text);
    DocOrderKeys(done);
    docOrder' := docOrder;
    if row.msg !in docLen {
      docOrder' := docOrder + [row.msg];
    }
    docLen' := docLen[row.msg := |toks|];
    postings' := AddPostings(postings, row.msg, toks);
    df' := BumpDf(df, toks);
    RowStep(postings, df, done, postings', df', row);
  }

  /** `build_bm25`: one pass over the rows, then `avg_len = sum(doc_len.values()) / max(N, 1)`. */
  method BuildIndex(rows: seq<Row>, k1: real, b: real) returns (idx: Index)
    ensures idx.n == |rows|
    ensures idx.docLen == DocLens(rows) && idx.docOrder == DocOrder(rows)
    ensures TablesMatch(idx.postings, idx.df, rows)
    ensures forall k :: 0 <= k < |idx.docOrder| ==> idx.docOrder[k] in idx.docLen
    ensures idx.avgLen == LenTotal(idx.docOrder, idx.docLen) as real / Max(|rows|, 1) as real
    ensures idx.k1 == k1 && idx.b == b
  {
    var postings, df, docLen, docOrder, n := IndexRows(rows);
    DocOrderInLens(rows);
    var avg := LenTotal(docOrder, docLen) as real / Max(n, 1) as real;
    idx := Index(postings, df, docLen, docOrder, n, avg, k1, b);
  }

  /** The row loop of `build_index`. */
  method IndexRows(rows: seq<Row>)
    returns (postings: map<string, seq<Posting>>, df: map<string, nat>, docLen: map<int, nat>, docOrder: seq<int>, n: nat)
    ensures n == |rows|
    ensures docLen == DocLens(rows) && docOrder == DocOrder(rows)
    ensures TablesMatch(postings, df, rows)
  {
    postings, df, docLen, docOrder, n := map[], map[], map[], [], 0;
    var i := 0;
    while i < |rows|
      invariant 0 <= i <= |rows| && n == i
      invariant docLen == DocLens(rows[..i]) && docOrder == DocOrder(rows[..i])
      invariant TablesMatch(postings, df, rows[..i])
    {
      assert rows[..i + 1] == rows[..i] + [rows[i]];
      n := n + 1;
      postings, df, docLen, docOrder := IndexRow(postings, df, docLen, docOrder, rows[..i], rows[i]);
      i := i + 1;
    }
    assert rows[..i] == rows;
  }

  lemma {:induction false} DocOrderInLens(rows: seq<Row>)
    ensures forall k :: 0 <= k < |DocOrder(rows)| ==> DocOrder(rows)[k] in DocLens(rows)
  {
    DocOrderKeys(rows);
    var order := DocOrder(rows);
    forall k | 0 <= k < |order| ensures order[k] in DocLens(rows) {
      var m := order[k];
      assert m in order;
    }
  }


  // ---------------------------------------------------------------------------
  // What the index promises

  /** A term's postings hold exactly one entry per row containing it, each with a count of at least 1: df is their number. */
  lemma {:induction false} PostingsShape(rows: seq<Row>, t: string)
    ensures |PostingsFor(rows, t)| == DfFor(rows, t)
    ensures forall k :: 0 <= k < |PostingsFor(rows, t)| ==> PostingsFor(rows, t)[k].tf >= 1
  {
    if rows != [] {
      PostingsShape(rows[..|rows| - 1], t);
      CountPositive(RowTokens(rows[|rows| - 1]), t);
    }
  }

  /** The posting of row `k` for a term it contains sits right after those of the earlier rows containing the term. */
  lemma {:induction false} PostingOfRow(rows: seq<Row>, k: nat, t: string)
    requires k < |rows| && t in RowTokens(rows[k])
    ensures DfFor(rows[..k], t) < |PostingsFor(rows, t)|
    ensures PostingsFor(rows, t)[DfFor(rows[..k], t)] == Posting(rows[k].msg, Count(RowTokens(rows[k]), t))
  {
    var init := rows[..|rows| - 1];
    CountPositive(RowTokens(rows[k]), t);
    PostingsShape(init, t);
    if k == |rows| - 1 {
      assert rows[..k] == init;
    } else {
      assert init[..k] == rows[..k];
      PostingOfRow(init, k, t);
    }
  }

  /** Each term of the vocabulary occurs in between 1 and N rows. */
  lemma {:induction false} DfBounds(rows: seq<Row>, t: string)
    ensures DfFor(rows, t) <= |rows|
    ensures InVocabulary(rows, t) ==> DfFor(rows, t) >= 1
  {
    if rows != [] {
      DfBounds(rows[..|rows| - 1], t);
    }
  }

  /** The `1 + (N - d + 0.5) / (d + 0.5)` inside idf's logarithm. */
  function IdfArgument(n: nat, d: nat): real
  {
    1.0 + ((n - d) as real + 0.5) / (d as real + 0.5)
  }

  lemma {:induction false} IdfArgumentOfBoundedDf(n: nat, d: nat)
    requires d <= n
    ensures IdfArgument(n, d) > 1.0
  {
    DivPositive((n - d) as real + 0.5, d as real + 0.5);
  }

  /** For every indexed term the logarithm's argument exceeds 1, so its idf is positive. */
  lemma {:induction false} IdfArgumentAboveOne(rows: seq<Row>, idx: Index)
    requires idx.n == |rows| && TablesMatch(idx.postings, idx.df, rows)
    ensures forall t :: t in idx.df ==> IdfArgument(idx.n, idx.df[t]) > 1.0
  {
    forall t | t in idx.df ensures IdfArgument(idx.n, idx.df[t]) > 1.0 {
      DfBounds(rows, t);
      IdfArgumentOfBoundedDf(idx.n, idx.df[t]);
    }
  }

  /** Sum over `terms` of each term's count in `toks`. */
  function CountsOver(terms: seq<string>, toks: seq<string>): nat
  {
    if terms == [] then 0 else CountsOver(terms[..|terms| - 1], toks) + Count(toks, terms[|terms| - 1])
  }

  lemma {:induction false} CountsOverExtend(terms: seq<string>, toks: seq<string>, x: string)
    requires Distinct(terms)
    ensures CountsOver(terms, toks + [x]) == CountsOver(terms, toks) + (if x in terms then 1 else 0)
  {
    if terms != [] {
      var init := terms[..|terms| - 1];
      CountsOverExtend(init, toks, x);
      assert (toks + [x])[..|toks + [x]| - 1] == toks;
      assert x in terms <==> x in init || x == terms[|terms| - 1];
    }
  }

  lemma {:induction false} CountsOverAppendTerm(terms: seq<string>, toks: seq<string>, x: string)
    ensures CountsOver(terms + [x], toks) == CountsOver(terms, toks) + Count(toks, x)
  {
    assert (terms + [x])[..|terms + [x]| - 1] == terms;
  }

  /** The term frequencies of one row add up to its document length. */
  lemma {:induction false} TermFrequenciesSumToLength(toks: seq<string>)
    ensures CountsOver(DistinctTerms(toks), toks) == |toks|
  {
    if toks != [] {
      var init, x := toks[..|toks| - 1], toks[|toks| - 1];
      assert toks == init + [x];
      TermFrequenciesSumToLength(init);
      var d := DistinctTerms(init);
      DistinctTermsSpec(init);
      DistinctTermsSpec(toks);
      if x in d {
        CountsOverExtend(d, init, x);
      } else {
        CountsOverExtend(d, init, x);
        CountsOverAppendTerm(d, toks, x);
        CountPositive(init, x);
        assert Count(toks, x) == Count(init, x) + 1;
      }
    }
  }

  predicate DistinctMsgs(rows: seq<Row>)
  {
    forall i, j :: 0 <= i < j < |rows| ==> rows[i].msg != rows[j].msg
  }

  /** `doc_len[msg]` is the length of the last row carrying `msg`: a repeated id overwrites the earlier length. */
  lemma {:induction false} DocLenIsLastRow(rows: seq<Row>, k: nat)
    requires k < |rows|
    requires forall j :: k < j < |rows| ==> rows[j].msg != rows[k].msg
    ensures rows[k].msg in DocLens(rows) && DocLens(rows)[rows[k].msg] == |RowTokens(rows[k])|
  {
    if k < |rows| - 1 {
      DocLenIsLastRow(rows[..|rows| - 1], k);
    }
  }

  /** Total token count over all rows. */
  function TokenTotal(rows: seq<Row>): nat
  {
    if rows == [] then 0 else TokenTotal(rows[..|rows| - 1]) + |RowTokens(rows[|rows| - 1])|
  }

  lemma {:induction false} LenTotalIgnoresOthers(order: seq<int>, lens: map<int, nat>, m: int, v: nat)
    requires forall k :: 0 <= k < |order| ==> order[k] in lens
    requires m !in order
    ensures LenTotal(order, lens[m := v]) == LenTotal(order, lens)
  {
    if order != [] {
      LenTotalIgnoresOthers(order[..|order| - 1], lens, m, v);
    }
  }

  /** With distinct message ids, `avg_len · max(N, 1)` is the total number of tokens. */
  lemma {:induction false} AvgLenOfDistinctRows(rows: seq<Row>)
    requires DistinctMsgs(rows)
    ensures forall k :: 0 <= k < |DocOrder(rows)| ==> DocOrder(rows)[k] in DocLens(rows)
    ensures LenTotal(DocOrder(rows), DocLens(rows)) == TokenTotal(rows)
  {
    DocOrderKeys(rows);
    if rows != [] {
      var init, r := rows[..|rows| - 1], rows[|rows| - 1];
      AvgLenOfDistinctRows(init);
      DocOrderKeys(init);
      assert r.msg !in DocLens(init) by {
        if r.msg in DocLens(init) {
          MsgOfDocLens(init, r.msg);
        }
      }
      LenTotalIgnoresOthers(DocOrder(init), DocLens(init), r.msg, |RowTokens(r)|);
      var o := DocOrder(rows);
      assert o == DocOrder(init) + [r.msg];
      assert o[..|o| - 1] == DocOrder(init);
    }
  }

  lemma {:induction false} MsgOfDocLens(rows: seq<Row>, m: int)
    requires m in DocLens(rows)
    ensures exists k :: 0 <= k < |rows| && rows[k].msg == m
  {
    var init := rows[..|rows| - 1];
    if rows[|rows| - 1].msg != m {
      MsgOfDocLens(init, m);
      var k :| 0 <= k < |init| && init[k].msg == m;
      assert rows[k].msg == m;
    }
  }

  lemma {:induction false} LenTotalAtLeast(order: seq<int>, lens: map<int, nat>, k: nat)
    requires forall j :: 0 <= j < |order| ==> order[j] in lens
    requires k < |order|
    ensures LenTotal(order, lens) >= lens[order[k]]
  {
    if k < |order| - 1 {
      LenTotalAtLeast(order[..|order| - 1], lens, k);
    }
  }

  /** What `bm25_search` needs of `stats.json`: `dl / avg_len` is only evaluated when `dl > 0`, so a zero average must come with all lengths zero. */
  predicate Searchable(idx: Index)
  {
    idx.avgLen > 0.0 || forall m :: m in idx.docLen ==> idx.docLen[m] == 0
  }

  /** Every index `build_bm25` produces can be searched without dividing by zero. */
  lemma {:induction false} BuiltIndexSearchable(rows: seq<Row>, idx: Index)
    requires idx.n == |rows| && idx.docLen == DocLens(rows) && idx.docOrder == DocOrder(rows)
    requires forall k :: 0 <= k < |idx.docOrder| ==> idx.docOrder[k] in idx.docLen
    requires idx.avgLen == LenTotal(idx.docOrder, idx.docLen) as real / Max(|rows|, 1) as real
    ensures Searchable(idx)
  {
    DocOrderKeys(rows);
    if m :| m in idx.docLen && idx.docLen[m] != 0 {
      var k :| 0 <= k < |idx.docOrder| && idx.docOrder[k] == m;
      LenTotalAtLeast(idx.docOrder, idx.docLen, k);
      var tot := LenTotal(idx.docOrder, idx.docLen) as real;
      DivPositive(tot, Max(|rows|, 1) as real);
    }
  }
}

module Bm25Search {
  import opened Common
  import opened Strings
  import opened Bm25
  import opened Bm25Index
  import StableSort

  /** The `scores` defaultdict: its keys in insertion order, and the values. */
  datatype Acc = Acc(order: seq<int>, scores: map<int, real>)

  ghost predicate AccValid(acc: Acc)
  {
    && Distinct(acc.order)
    && (forall m :: m in acc.scores <==> m in acc.order)
    && (forall k :: 0 <= k < |acc.order| ==> acc.order[k] in acc.scores)
  }

  /** `scores[m] += x` on a `defaultdict(float)`. */
  function AddScore(acc: Acc, m: int, x: real): Acc
  {
    if m in acc.scores then Acc(acc.order, acc.scores[m := acc.scores[m] + x])
    else Acc(acc.order + [m], acc.scores[m := 0.0 + x])
  }

  /** `doclen.get(str(m)) or doclen.get(m) or 0`. */
  function DocLenAt(idx: Index, m: int): nat
  {
    if m in idx.docLen then idx.docLen[m] else 0
  }

  /** `idf.get(qt, 0.0)`. */
  function IdfOf(idf: map<string, real>, t: string): real
  {
    if t in idf then idf[t] else 0.0
  }

  /** One term's BM25 contribution to one document. */
  function Contribution(termIdf: real, tf: nat, dl: nat, idx: Index): real
    requires idx.avgLen > 0.0
  {
    var denom := tf as real + idx.k1 * (1.0 - idx.b + idx.b * (dl as real / idx.avgLen));
    termIdf * ((tf as real * (idx.k1 + 1.0)) / MaxR(denom, 0.000000001))
  }

  /** The inner loop over one term's postings list. */
  function ScorePostings(acc: Acc, plist: seq<Posting>, termIdf: real, idx: Index): Acc
    requires Searchable(idx)
  {
    if plist == [] then acc
    else
      var acc' := ScorePostings(acc, plist[..|plist| - 1], termIdf, idx);
      var e := plist[|plist| - 1];
      var dl := DocLenAt(idx, e.msg);
      if dl <= 0 then acc' else AddScore(acc', e.msg, Contribution(termIdf, e.tf, dl, idx))
  }

  /** The outer loop over the query's tokens (terms without postings are skipped). */
  function ScoreTerms(qterms: seq<string>, idx: Index, idf: map<string, real>): Acc
    requires Searchable(idx)
  {
    if qterms == [] then Acc([], map[])
    else
      var acc := ScoreTerms(qterms[..|qterms| - 1], idx, idf);
      var qt := qterms[|qterms| - 1];
      if qt in idx.postings && idx.postings[qt] != [] then ScorePostings(acc, idx.postings[qt], IdfOf(idf, qt), idx)
      else acc
  }

  datatype Scored = Scored(msg: int, score: real)

  /** `scores.items()` in insertion order. */
  function Items(acc: Acc): seq<Scored>
    requires AccValid(acc)
  {
    seq(|acc.order|, k requires 0 <= k < |acc.order| => Scored(acc.order[k], acc.scores[acc.order[k]]))
  }

  /** `key=lambda kv: kv[1], reverse=True`: a higher score may precede a lower one. */
  function ByScoreDesc(): (Scored, Scored) -> bool
  {
    (x: Scored, y: Scored) => x.score >= y.score
  }

  /** The record `bm25_search` builds for one ranked message. */
  function PackageHit(s: Scored, meta: map<int, MetaEntry>): Hit
  {
    var mm := MetaOf(meta, s.msg);
    Hit(s.msg, s.score, mm.convId, mm.title, mm.role, mm.ts, None)
  }

  lemma {:induction false} AddScoreValid(acc: Acc, m: int, x: real)
    requires AccValid(acc)
    ensures AccValid(AddScore(acc, m, x))
  {
  }

  lemma {:induction false} ScorePostingsValid(acc: Acc, plist: seq<Posting>, termIdf: real, idx: Index)
    requires Searchable(idx) && AccValid(acc)
    ensures AccValid(ScorePostings(acc, plist, termIdf, idx))
  {
    if plist != [] {
      ScorePostingsValid(acc, plist[..|plist| - 1], termIdf, idx);
    }
  }

  lemma {:induction false} ScoreTermsValid(qterms: seq<string>, idx: Index, idf: map<string, real>)
    requires Searchable(idx)
    ensures AccValid(ScoreTerms(qterms, idx, idf))
  {
    if qterms != [] {
      ScoreTermsValid(qterms[..|qterms| - 1], idx, idf);
      var qt := qterms[|qterms| - 1];
      if qt in idx.postings && idx.postings[qt] != [] {
        ScorePostingsValid(ScoreTerms(qterms[..|qterms| - 1], idx, idf), idx.postings[qt], IdfOf(idf, qt), idx);
      }
    }
  }

  /** The scored messages of a non-blank query, best first, cut to `topk`. */
  function Ranked(query: string, topk: int, idx: Index, idf: map<string, real>): seq<Scored>
    requires Searchable(idx)
  {
    var acc := ScoreTerms(Tokens(query), idx, idf);
    ScoreTermsValid(Tokens(query), idx, idf);
    PyTake(StableSort.Sort(Items(acc), ByScoreDesc()), topk)
  }

  /** The packaged result of a query. */
  function SearchResult(query: string, topk: int, idx: Index, idf: map<string, real>, meta: map<int, MetaEntry>): seq<Hit>
    requires Searchable(idx)
  {
    if IsBlank(query) then []
    else
      var ranked := Ranked(query, topk, idx, idf);
      seq(|ranked|, k requires 0 <= k < |ranked| => PackageHit(ranked[k], meta))
  }

  // Reference definitions: a message's score is the sum, over the query's tokens (with
  // repeats), of the contributions of that token's postings for the message.

  predicate HasPosting(plist: seq<Posting>, m: int)
  {
    exists k :: 0 <= k < |plist| && plist[k].msg == m
  }

  /** Some query token has a posting for `m`. */
  predicate Matched(qterms: seq<string>, m: int, idx: Index)
  {
    exists i :: 0 <= i < |qterms| && qterms[i] in idx.postings && HasPosting(idx.postings[qterms[i]], m)
  }

  function PostingsContribution(plist: seq<Posting>, m: int, termIdf: real, idx: Index): real
    requires Searchable(idx)
  {
    if plist == [] then 0.0
    else
      var e := plist[|plist| - 1];
      PostingsContribution(plist[..|plist| - 1], m, termIdf, idx)
      + (if e.msg == m && DocLenAt(idx, m) > 0 then Contribution(termIdf, e.tf, DocLenAt(idx, m), idx) else 0.0)
  }

  function TermsContribution(qterms: seq<string>, m: int, idx: Index, idf: map<string, real>): real
    requires Searchable(idx)
  {
    if qterms == [] then 0.0
    else
      var qt := qterms[|qterms| - 1];
      TermsContribution(qterms[..|qterms| - 1], m, idx, idf)
      + (if qt in idx.postings then PostingsContribution(idx.postings[qt], m, IdfOf(idf, qt), idx) else 0.0)
  }

  lemma {:induction false} PostingsContributionZero(plist: seq<Posting>, m: int, termIdf: real, idx: Index)
    requires Searchable(idx)
    requires !HasPosting(plist, m) || DocLenAt(idx, m) == 0
    ensures PostingsContribution(plist, m, termIdf, idx) == 0.0
  {
    if plist != [] {
      var init := plist[..|plist| - 1];
      if HasPosting(init, m) {
        var k :| 0 <= k < |init| && init[k].msg == m;
        assert plist[k].msg == m;
      }
      PostingsContributionZero(init, m, termIdf, idx);
    }
  }

  lemma {:induction false} TermsContributionZero(qterms: seq<string>, m: int, idx: Index, idf: map<string, real>)
    requires Searchable(idx)
    requires !Matched(qterms, m, idx) || DocLenAt(idx, m) == 0
    ensures TermsContribution(qterms, m, idx, idf) == 0.0
  {
    if qterms != [] {
      var init, qt := qterms[..|qterms| - 1], qterms[|qterms| - 1];
      if Matched(init, m, idx) {
        var i :| 0 <= i < |init| && init[i] in idx.postings && HasPosting(idx.postings[init[i]], m);
        assert qterms[i] == init[i];
      }
      TermsContributionZero(init, m, idx, idf);
      if qt in idx.postings {
        if HasPosting(idx.postings[qt], m) {
          assert qterms[|qterms| - 1] == qt;
        }
        PostingsContributionZero(idx.postings[qt], m, IdfOf(idf, qt), idx);
      }
    }
  }

  /** The postings loop adds exactly the message's contributions from this list. */
  lemma {:induction false} ScorePostingsSpec(acc: Acc, plist: seq<Posting>, termIdf: real, idx: Index, m: int)
    requires Searchable(idx)
    ensures var r := ScorePostings(acc, plist, termIdf, idx);
      && (m in r.scores <==> m in acc.scores || (HasPosting(plist, m) && DocLenAt(idx, m) > 0))
      && (m in r.scores ==>
            r.scores[m] == (if m in acc.scores then acc.scores[m] else 0.0) + PostingsContribution(plist, m, termIdf, idx))
  {
    if plist != [] {
      var init := plist[..|plist| - 1];
      ScorePostingsSpec(acc, init, termIdf, idx, m);
      if !HasPosting(init, m) || DocLenAt(idx, m) == 0 {
        PostingsContributionZero(init, m, termIdf, idx);
      }
      assert HasPosting(plist, m) <==> HasPosting(init, m) || plist[|plist| - 1].msg == m by {
        if HasPosting(plist, m) && plist[|plist| - 1].msg != m {
          var k :| 0 <= k < |plist| && plist[k].msg == m;
          assert init[k].msg == m;
        }
        if HasPosting(init, m) {
          var k :| 0 <= k < |init| && init[k].msg == m;
          assert plist[k].msg == m;
        }
      }
    } else {
      assert !HasPosting(plist, m);
    }
  }

  /**
   * The accumulated `scores`: a message is scored iff some query token has a posting for it
   * and its length is positive, and its score is the sum of its contributions.
   */
  lemma {:induction false} ScoreTermsSpec(qterms: seq<string>, idx: Index, idf: map<string, real>, m: int)
    requires Searchable(idx)
    ensures var acc := ScoreTerms(qterms, idx, idf);
      && (m in acc.scores <==> Matched(qterms, m, idx) && DocLenAt(idx, m) > 0)
      && (m in acc.scores ==> acc.scores[m] == TermsContribution(qterms, m, idx, idf))
  {
    if qterms == [] {
      assert !Matched(qterms, m, idx);
    } else {
      var init, qt := qterms[..|qterms| - 1], qterms[|qterms| - 1];
      ScoreTermsSpec(init, idx, idf, m);
      var acc := ScoreTerms(init, idx, idf);
      if m !in acc.scores {
        TermsContributionZero(init, m, idx, idf);
      }
      if qt in idx.postings {
        ScorePostingsSpec(acc, idx.postings[qt], IdfOf(idf, qt), idx, m);
      }
      assert Matched(qterms, m, idx) <==> Matched(init, m, idx) || (qt in idx.postings && HasPosting(idx.postings[qt], m)) by {
        if Matched(qterms, m, idx) && !(qt in idx.postings && HasPosting(idx.postings[qt], m)) {
          var i :| 0 <= i < |qterms| && qterms[i] in idx.postings && HasPosting(idx.postings[qterms[i]], m);
          assert init[i] == qterms[i];
        }
        if Matched(init, m, idx) {
          var i :| 0 <= i < |init| && init[i] in idx.postings && HasPosting(idx.postings[init[i]], m);
          assert qterms[i] == init[i];
        }
      }
    }
  }

  /** With a non-negative idf and `k1 >= -1` a posting never lowers a score. */
  lemma {:induction false} ContributionNonNegative(termIdf: real, tf: nat, dl: nat, idx: Index)
    requires idx.avgLen > 0.0 && termIdf >= 0.0 && idx.k1 >= -1.0
    ensures Contribution(termIdf, tf, dl, idx) >= 0.0
  {
    var denom := tf as real + idx.k1 * (1.0 - idx.b + idx.b * (dl as real / idx.avgLen));
    var num := tf as real * (idx.k1 + 1.0);
    assert num >= 0.0;
    DivNonNegative(num, MaxR(denom, 0.000000001));
  }

  lemma {:induction false} PostingsContributionNonNegative(plist: seq<Posting>, m: int, termIdf: real, idx: Index)
    requires Searchable(idx) && termIdf >= 0.0 && idx.k1 >= -1.0
    ensures PostingsContribution(plist, m, termIdf, idx) >= 0.0
  {
    if plist != [] {
      var e := plist[|plist| - 1];
      PostingsContributionNonNegative(plist[..|plist| - 1], m, termIdf, idx);
      if e.msg == m && DocLenAt(idx, m) > 0 {
        ContributionNonNegative(termIdf, e.tf, DocLenAt(idx, m), idx);
      }
    }
  }

  /** Scores are non-negative whenever every idf is (as `log(1 + x)` with `x > 1` is). */
  lemma {:induction false} TermsContributionNonNegative(qterms: seq<string>, m: int, idx: Index, idf: map<string, real>)
    requires Searchable(idx) && idx.k1 >= -1.0
    requires forall t :: t in idf ==> idf[t] >= 0.0
    ensures TermsContribution(qterms, m, idx, idf) >= 0.0
  {
    if qterms != [] {
      var qt := qterms[|qterms| - 1];
      TermsContributionNonNegative(qterms[..|qterms| - 1], m, idx, idf);
      if qt in idx.postings {
        PostingsContributionNonNegative(idx.postings[qt], m, IdfOf(idf, qt), idx);
      }
    }
  }

  lemma {:induction false} ByScoreDescTotal()
    ensures StableSort.TotalPreorder(ByScoreDesc())
  {
  }

  /** `Items` lists each scored message once, with its score. */
  lemma {:induction false} ItemsSpec(acc: Acc)
    requires AccValid(acc)
    ensures Distinct(Items(acc))
    ensures forall x: Scored :: x in Items(acc) <==> x.msg in acc.scores && x.score == acc.scores[x.msg]
  {
    var items := Items(acc);
    forall x: Scored | x.msg in acc.scores && x.score == acc.scores[x.msg] ensures x in items {
      var k :| 0 <= k < |acc.order| && acc.order[k] == x.msg;
      assert items[k] == x;
    }
  }

  /** The facts the ranking lemmas share about one query. */
  lemma {:induction false} RankedElements(query: string, topk: int, idx: Index, idf: map<string, real>)
    requires Searchable(idx)
    ensures var r := Ranked(query, topk, idx, idf);
      && (topk >= 0 ==> |r| <= topk)
      && (forall i, j :: 0 <= i < j < |r| ==> r[i].score >= r[j].score)
      && (forall i, j :: 0 <= i < j < |r| ==> r[i].msg != r[j].msg)
      && (forall i :: 0 <= i < |r| ==>
            && Matched(Tokens(query), r[i].msg, idx) && DocLenAt(idx, r[i].msg) > 0
            && r[i].score == TermsContribution(Tokens(query), r[i].msg, idx, idf))
  {
    var q := Tokens(query);
    var acc := ScoreTerms(q, idx, idf);
    ScoreTermsValid(q, idx, idf);
    var items := Items(acc);
    var sorted := StableSort.Sort(items, ByScoreDesc());
    var r := Ranked(query, topk, idx, idf);
    ByScoreDescTotal();
    StableSort.TopK(items, ByScoreDesc(), topk);
    ItemsSpec(acc);
    StableSort.SortDistinct(items, ByScoreDesc());
    forall i | 0 <= i < |r|
      ensures r[i].msg in acc.scores && r[i].score == acc.scores[r[i].msg]
    {
      assert r[i] == sorted[i];
      assert sorted[i] in multiset(sorted);
    }
    forall i | 0 <= i < |r|
      ensures Matched(q, r[i].msg, idx) && DocLenAt(idx, r[i].msg) > 0
      ensures r[i].score == TermsContribution(q, r[i].msg, idx, idf)
    {
      ScoreTermsSpec(q, idx, idf, r[i].msg);
    }
    forall i, j | 0 <= i < j < |r| ensures r[i].msg != r[j].msg {
      assert r[i] == sorted[i] && r[j] == sorted[j];
    }
  }

  /**
   * Top-k: a matched message left out of the cut scores no higher than any kept one, and
   * when fewer than `topk` are kept, none was left out.
   */
  lemma {:induction false} RankedIsTopK(query: string, topk: int, idx: Index, idf: map<string, real>, m: int)
    requires Searchable(idx)
    requires Matched(Tokens(query), m, idx) && DocLenAt(idx, m) > 0
    ensures var r := Ranked(query, topk, idx, idf);
      && ((forall i :: 0 <= i < |r| ==> r[i].msg != m) ==>
            forall i :: 0 <= i < |r| ==> r[i].score >= TermsContribution(Tokens(query), m, idx, idf))
      && (0 <= |r| < topk ==> exists i :: 0 <= i < |r| && r[i].msg == m)
  {
    var q := Tokens(query);
    var acc := ScoreTerms(q, idx, idf);
    ScoreTermsValid(q, idx, idf);
    var items := Items(acc);
    ItemsSpec(acc);
    ScoreTermsSpec(q, idx, idf, m);
    var x := Scored(m, acc.scores[m]);
    assert x in items;
    ScoredCut(items, topk, x);
  }

  /** The cut of any scored list, for one of its elements: kept when the cut is short, otherwise outscored if dropped. */
  lemma {:induction false} ScoredCut(items: seq<Scored>, topk: int, x: Scored)
    requires x in items
    ensures var r := PyTake(StableSort.Sort(items, ByScoreDesc()), topk);
      && ((forall i :: 0 <= i < |r| ==> r[i].msg != x.msg) ==> forall i :: 0 <= i < |r| ==> r[i].score >= x.score)
      && (0 <= |r| < topk ==> exists i :: 0 <= i < |r| && r[i].msg == x.msg)
  {
    var r := PyTake(StableSort.Sort(items, ByScoreDesc()), topk);
    if forall i :: 0 <= i < |r| ==> r[i].msg != x.msg {
      ByScoreDescTotal();
      assert x !in r;
      StableSort.TopKLeftOut(items, ByScoreDesc(), topk, x);
      forall i | 0 <= i < |r| ensures r[i].score >= x.score {
        assert ByScoreDesc()(StableSort.Sort(items, ByScoreDesc())[i], x);
      }
    }
    if 0 <= |r| < topk {
      StableSort.TopKShortKeepsAll(items, ByScoreDesc(), topk, x);
      var i :| 0 <= i < |r| && r[i] == x;
    }
  }


  /** Every hit of a non-blank query is a scored message together with its metadata. */
  lemma {:induction false} SearchResultHits(query: string, topk: int, idx: Index, idf: map<string, real>, meta: map<int, MetaEntry>)
    requires Searchable(idx)
    ensures var r := SearchResult(query, topk, idx, idf, meta);
      && (IsBlank(query) ==> r == [])
      && (topk >= 0 ==> |r| <= topk)
      && (forall i, j :: 0 <= i < j < |r| ==> r[i].score >= r[j].score && r[i].msg != r[j].msg)
      && (forall i :: 0 <= i < |r| ==>
            && Matched(Tokens(query), r[i].msg, idx) && DocLenAt(idx, r[i].msg) > 0
            && r[i].score == TermsContribution(Tokens(query), r[i].msg, idx, idf)
            && var mm := MetaOf(meta, r[i].msg);
               r[i] == Hit(r[i].msg, r[i].score, mm.convId, mm.title, mm.role, mm.ts, None))
  {
    if !IsBlank(query) {
      RankedElements(query, topk, idx, idf);
    }
  }

  /** The inner loop of `bm25_search`: one query term's postings added into `scores`. */
  method AddTermScores(acc0: Acc, plist: seq<Posting>, termIdf: real, idx: Index) returns (acc: Acc)
    requires Searchable(idx)
    ensures acc == ScorePostings(acc0, plist, termIdf, idx)
  {
    acc := acc0;
    var j := 0;
    while j < |plist|
      invariant 0 <= j <= |plist|
      invariant acc == ScorePostings(acc0, plist[..j], termIdf, idx)
    {
      var e := plist[j];
      assert plist[..j + 1][..j] == plist[..j];
      var dl := DocLenAt(idx, e.msg);
      if dl > 0 {
        acc := AddScore(acc, e.msg, Contribution(termIdf, e.tf, dl, idx));
      }
      j := j + 1;
    }
    assert plist[..j] == plist;
  }

  /** The outer loop of `bm25_search`, over the query's tokens. */
  method ScoreQuery(qTerms: seq<string>, idx: Index, idf: map<string, real>) returns (acc: Acc)
    requires Searchable(idx)
    ensures acc == ScoreTerms(qTerms, idx, idf)
  {
    acc := Acc([], map[]);
    var i := 0;
    while i < |qTerms|
      invariant 0 <= i <= |qTerms|
      invariant acc == ScoreTerms(qTerms[..i], idx, idf)
    {
      var qt := qTerms[i];
      assert qTerms[..i + 1][..i] == qTerms[..i];
      if qt in idx.postings && idx.postings[qt] != [] {
        acc := AddTermScores(acc, idx.postings[qt], IdfOf(idf, qt), idx);
      }
      i := i + 1;
    }
    assert qTerms[..i] == qTerms;
  }

  /** `bm25_search` over in-memory artifacts; `k1` and `b` come from the index stats, which always hold them. */
  method Search(query: string, topk: int, idx: Index, idf: map<string, real>, meta: map<int, MetaEntry>)
    returns (hits: seq<Hit>)
    requires Searchable(idx)
    ensures hits == SearchResult(query, topk, idx, idf, meta)
  {
    if IsBlank(query) {
      return [];
    }
    var qTerms := Tokenize(query);
    var acc := ScoreQuery(qTerms, idx, idf);
    ScoreTermsValid(qTerms, idx, idf);
    var ranked := PyTake(StableSort.Sort(Items(acc), ByScoreDesc()), topk);
    hits := PackageHits(ranked, meta);
  }

  /** The loop that turns ranked pairs into result records. */
  method PackageHits(ranked: seq<Scored>, meta: map<int, MetaEntry>) returns (hits: seq<Hit>)
    ensures hits == seq(|ranked|, k requires 0 <= k < |ranked| => PackageHit(ranked[k], meta))
  {
    hits := [];
    var k := 0;
    while k < |ranked|
      invariant 0 <= k <= |ranked|
      invariant hits == seq(k, j requires 0 <= j < k => PackageHit(ranked[j], meta))
    {
      hits := hits + [PackageHit(ranked[k], meta)];
      k := k + 1;
    }
  }
}
