/**
 * `search.py`: the date-window test, the filtered BM25 search that attaches snippets, and the
 * conversation window around a message. Timestamps are compared as parsed values: `parse`
 * stands for `datetime.fromisoformat` (after the `Z` to `+00:00` rewrite) and yields `None`
 * where it raises.
 */
module Search {
  import opened Common
  import opened Strings
  import Bm25Index
  import Bm25Search
  import StableSort

  // ---------------------------------------------------------------- _within

  /** A bound that takes part in the test: given, non-empty and parseable. */
  function Bound(iso: Option<string>, parse: string -> Option<int>): Option<int>
  {
    if iso.Some? && iso.value != "" then parse(iso.value) else None
  }

  /**
   * `_within(ts, after_iso, before_iso)`: a timestamp passes exactly when it is missing or
   * unreadable, or lies in the closed interval between the bounds that take part.
   */
  function Within(ts: string, after: Option<string>, before: Option<string>, parse: string -> Option<int>): (r: bool)
    ensures var lo, hi := Bound(after, parse), Bound(before, parse);
      r <==>
        || ts == ""
        || parse(ts).None?
        || ((lo.None? || lo.value <= parse(ts).value) && (hi.None? || parse(ts).value <= hi.value))
  {
    if ts == "" then true
    else match parse(ts)
      case None => true
      case Some(t) =>
        if after.Some? && after.value != "" && parse(after.value).Some? && t < parse(after.value).value then false
        else if before.Some? && before.value != "" && parse(before.value).Some? && t > parse(before.value).value then false
        else true
  }

  /** A bound that does not parse is ignored, as if it were absent. */
  lemma {:induction false} WithinIgnoresBadBound(ts: string, after: Option<string>, before: Option<string>, parse: string -> Option<int>)
    ensures after.Some? && parse(after.value).None? ==>
      Within(ts, after, before, parse) == Within(ts, None, before, parse)
    ensures before.Some? && parse(before.value).None? ==>
      Within(ts, after, before, parse) == Within(ts, after, None, parse)
  {
  }

  /** The two bounds are independent tests. */
  lemma {:induction false} WithinSplit(ts: string, after: Option<string>, before: Option<string>, parse: string -> Option<int>)
    ensures Within(ts, after, before, parse) == (Within(ts, after, None, parse) && Within(ts, None, before, parse))
  {
  }

  // ------------------------------------------------ search_bm25_with_snippets

  /** The optional filters of `search_bm25_with_snippets`. */
  datatype Filters = Filters(
    role: Option<string>,
    hasCode: Option<bool>,
    after: Option<string>,
    before: Option<string>,
    convId: Option<string>)

  const NoFilters := Filters(None, None, None, None, None)

  /** Every test of the filtering loop passes for a message with meta entry `mm`. */
  predicate Keep(mm: MetaEntry, f: Filters, parse: string -> Option<int>)
  {
    && !(f.convId.Some? && f.convId.value != "" && mm.convId != f.convId)
    && !(f.role.Some? && f.role.value != "" && Lower(OrEmpty(mm.role)) != Lower(f.role.value))
    && !(f.hasCode.Some? && mm.hasCode != f.hasCode.value)
    && Within(OrEmpty(mm.ts), f.after, f.before, parse)
  }

  /** `{int(r["msg"]): r.get("text") for r in rows}`: a later row with the same id wins. */
  function TextById(rows: seq<Bm25Index.Row>): map<int, string>
  {
    if rows == [] then map[]
    else TextById(rows[..|rows| - 1])[rows[|rows| - 1].msg := rows[|rows| - 1].text]
  }

  /** The text map holds the ids of the rows, each with the text of its last row. */
  lemma {:induction false} TextByIdSpec(rows: seq<Bm25Index.Row>, m: int)
    ensures m in TextById(rows) <==> exists i :: 0 <= i < |rows| && rows[i].msg == m
    ensures m in TextById(rows) ==> exists i ::
      && 0 <= i < |rows| && rows[i].msg == m && TextById(rows)[m] == rows[i].text
      && forall j :: i < j < |rows| ==> rows[j].msg != m
  {
    if rows != [] {
      var init := rows[..|rows| - 1];
      TextByIdSpec(init, m);
      if rows[|rows| - 1].msg != m && m in TextById(rows) {
        var i :| 0 <= i < |init| && init[i].msg == m && TextById(init)[m] == init[i].text
          && forall j :: i < j < |init| ==> init[j].msg != m;
        assert rows[i] == init[i];
      }
      if m in TextById(init) {
        var i :| 0 <= i < |init| && init[i].msg == m;
        assert rows[i] == init[i];
      }
    }
  }

  /** `text_by_id.get(m) or mm.get("snippet") or ""`. */
  function Snippet(textById: map<int, string>, mm: MetaEntry, m: int): string
  {
    if m in textById && textById[m] != "" then textById[m] else OrEmpty(mm.snippet)
  }

  /** `r["snippet"] = ...` on a passing result. */
  function Annotate(h: Hit, meta: map<int, MetaEntry>, textById: map<int, string>): Hit
  {
    h.(snippet := Some(Snippet(textById, MetaOf(meta, h.msg), h.msg)))
  }

  predicate Passes(h: Hit, meta: map<int, MetaEntry>, f: Filters, parse: string -> Option<int>)
  {
    Keep(MetaOf(meta, h.msg), f, parse)
  }

  /** The elements of `s` that `keep` accepts, in order, each passed through `mark`. */
  function Select<T>(s: seq<T>, keep: T -> bool, mark: T -> T): seq<T>
  {
    if s == [] then []
    else Select(s[..|s| - 1], keep, mark) + (if keep(s[|s| - 1]) then [mark(s[|s| - 1])] else [])
  }

  /** The positions in `s` of the elements `keep` accepts. */
  function Positions<T>(s: seq<T>, keep: T -> bool): seq<int>
  {
    if s == [] then []
    else Positions(s[..|s| - 1], keep) + (if keep(s[|s| - 1]) then [|s| - 1] else [])
  }

  lemma {:induction false} SelectLength<T>(s: seq<T>, keep: T -> bool, mark: T -> T)
    ensures |Select(s, keep, mark)| == |Positions(s, keep)|
  {
    if s != [] {
      SelectLength(s[..|s| - 1], keep, mark);
    }
  }

  lemma {:induction false} PositionsValid<T>(s: seq<T>, keep: T -> bool, mark: T -> T)
    ensures var r, p := Select(s, keep, mark), Positions(s, keep);
      |r| == |p| && forall t :: 0 <= t < |p| ==> 0 <= p[t] < |s| && keep(s[p[t]]) && r[t] == mark(s[p[t]])
  {
    SelectLength(s, keep, mark);
    if s != [] {
      var init := s[..|s| - 1];
      PositionsValid(init, keep, mark);
      var p0 := Positions(init, keep);
      assert forall t :: 0 <= t < |p0| ==> s[p0[t]] == init[p0[t]];
    }
  }

  lemma {:induction false} PositionsIncreasing<T>(s: seq<T>, keep: T -> bool)
    ensures forall t :: 0 <= t < |Positions(s, keep)| ==> 0 <= Positions(s, keep)[t] < |s|
    ensures forall t, u :: 0 <= t < u < |Positions(s, keep)| ==> Positions(s, keep)[t] < Positions(s, keep)[u]
  {
    if s != [] {
      var init := s[..|s| - 1];
      PositionsIncreasing(init, keep);
      var p0 := Positions(init, keep);
      assert forall t :: 0 <= t < |p0| ==> p0[t] < |s| - 1;
      var p := Positions(s, keep);
      assert p[..|p0|] == p0;
      assert forall t :: |p0| <= t < |p| ==> p[t] == |s| - 1;
    }
  }

  lemma {:induction false} PositionsComplete<T>(s: seq<T>, keep: T -> bool)
    ensures forall i :: 0 <= i < |s| && keep(s[i]) ==> i in Positions(s, keep)
  {
    if s != [] {
      var init := s[..|s| - 1];
      PositionsComplete(init, keep);
      forall i | 0 <= i < |s| && keep(s[i]) ensures i in Positions(s, keep) {
        if i < |init| {
          assert s[i] == init[i];
        }
      }
    }
  }

  /**
   * The selection is an order-preserving subsequence of `s`: the elements at increasing
   * positions, which are exactly the positions whose element is accepted.
   */
  lemma {:induction false} SelectSpec<T>(s: seq<T>, keep: T -> bool, mark: T -> T)
    ensures var r, p := Select(s, keep, mark), Positions(s, keep);
      && |r| == |p|
      && (forall t :: 0 <= t < |p| ==> 0 <= p[t] < |s| && keep(s[p[t]]) && r[t] == mark(s[p[t]]))
      && (forall t, u :: 0 <= t < u < |p| ==> p[t] < p[u])
      && (forall i :: 0 <= i < |s| && keep(s[i]) ==> i in p)
  {
    PositionsValid(s, keep, mark);
    PositionsIncreasing(s, keep);
    PositionsComplete(s, keep);
  }

  /** Selecting from a prefix of `s` gives a prefix of the whole selection. */
  lemma {:induction false} SelectPrefix<T>(s: seq<T>, j: int, keep: T -> bool, mark: T -> T)
    requires 0 <= j <= |s|
    ensures var whole, part := Select(s, keep, mark), Select(s[..j], keep, mark);
      |part| <= |whole| && whole[..|part|] == part
    decreases |s| - j
  {
    if j < |s| {
      SelectPrefix(s, j + 1, keep, mark);
      assert s[..j + 1][..j] == s[..j];
    } else {
      assert s[..j] == s;
    }
  }

  /** Accepting everything keeps every element. */
  lemma {:induction false} SelectAll<T>(s: seq<T>, keep: T -> bool, mark: T -> T)
    requires forall x :: keep(x)
    ensures var r := Select(s, keep, mark);
      |r| == |s| && forall t :: 0 <= t < |r| ==> r[t] == mark(s[t])
  {
    if s != [] {
      SelectAll(s[..|s| - 1], keep, mark);
    }
  }

  function PassesFn(meta: map<int, MetaEntry>, f: Filters, parse: string -> Option<int>): Hit -> bool
  {
    h => Passes(h, meta, f, parse)
  }

  function AnnotateFn(meta: map<int, MetaEntry>, textById: map<int, string>): Hit -> Hit
  {
    h => Annotate(h, meta, textById)
  }

  /** Every passing result of `base`, in order, with its snippet. */
  function Selected(base: seq<Hit>, meta: map<int, MetaEntry>, textById: map<int, string>, f: Filters,
                    parse: string -> Option<int>): seq<Hit>
  {
    Select(base, PassesFn(meta, f, parse), AnnotateFn(meta, textById))
  }

  /** What `search_bm25_with_snippets` returns for the BM25 results `base`. */
  function SnippetResult(base: seq<Hit>, k: int, meta: map<int, MetaEntry>, rows: seq<Bm25Index.Row>,
                         f: Filters, parse: string -> Option<int>): seq<Hit>
  {
    PyTake(Selected(base, meta, TextById(rows), f, parse), Max(k, 1))
  }

  /**
   * At most `k` results (one when `k <= 0`, since the loop appends before it tests the count),
   * each passing every filter and carrying its snippet, in their BM25 order; fewer than the
   * cap means no passing result was dropped.
   */
  lemma {:induction false} SnippetResultSpec(base: seq<Hit>, k: int, meta: map<int, MetaEntry>, rows: seq<Bm25Index.Row>,
                          f: Filters, parse: string -> Option<int>)
    ensures var r, all := SnippetResult(base, k, meta, rows, f, parse), Selected(base, meta, TextById(rows), f, parse);
      && |r| <= Max(k, 1)
      && r == all[..|r|]
      && (|r| < Max(k, 1) ==> r == all)
      && (forall t :: 0 <= t < |r| ==> Passes(r[t], meta, f, parse))
      && (forall t :: 0 <= t < |r| ==> r[t].snippet == Some(Snippet(TextById(rows), MetaOf(meta, r[t].msg), r[t].msg)))
  {
    var keep, mark := PassesFn(meta, f, parse), AnnotateFn(meta, TextById(rows));
    var all := Select(base, keep, mark);
    SelectSpec(base, keep, mark);
    var p := Positions(base, keep);
    forall t | 0 <= t < |all|
      ensures Passes(all[t], meta, f, parse)
      ensures all[t].snippet == Some(Snippet(TextById(rows), MetaOf(meta, all[t].msg), all[t].msg))
    {
      assert all[t] == Annotate(base[p[t]], meta, TextById(rows));
    }
  }

  /** With no filter given, every BM25 result is kept, in order, each with its snippet. */
  lemma {:induction false} SelectedWithoutFilters(base: seq<Hit>, meta: map<int, MetaEntry>, textById: map<int, string>,
                               parse: string -> Option<int>)
    ensures var r := Selected(base, meta, textById, NoFilters, parse);
      |r| == |base| && forall t :: 0 <= t < |r| ==> r[t] == Annotate(base[t], meta, textById)
  {
    SelectAll(base, PassesFn(meta, NoFilters, parse), AnnotateFn(meta, textById));
  }

  /** The role filter ignores case on both sides. */
  lemma {:induction false} RoleCaseInsensitive(mm: MetaEntry, f: Filters, role: string, parse: string -> Option<int>)
    requires f.role.Some? && Lower(f.role.value) == Lower(role)
    ensures Keep(mm, f, parse) == Keep(mm, f.(role := Some(role)), parse)
  {
    if role == "" {
      assert |Lower(f.role.value)| == 0;
    }
  }

  /** `search_bm25_with_snippets`: filter the top 200 BM25 results until `k` pass. */
  method SearchWithSnippets(query: string, k: int, f: Filters, idx: Bm25Index.Index, idf: map<string, real>,
                            meta: map<int, MetaEntry>, rows: seq<Bm25Index.Row>, parse: string -> Option<int>)
    returns (out: seq<Hit>)
    requires Bm25Index.Searchable(idx)
    ensures out == SnippetResult(Bm25Search.SearchResult(query, 200, idx, idf, meta), k, meta, rows, f, parse)
  {
    var base := Bm25Search.Search(query, 200, idx, idf, meta);
    out := FilterHits(base, k, f, meta, TextById(rows), parse);
  }

  /** The loop of `search_bm25_with_snippets`: each test skips, a passing result is appended, `k` stops. */
  method FilterHits(base: seq<Hit>, k: int, f: Filters, meta: map<int, MetaEntry>, textById: map<int, string>,
                    parse: string -> Option<int>)
    returns (out: seq<Hit>)
    ensures out == PyTake(Selected(base, meta, textById, f, parse), Max(k, 1))
  {
    ghost var keep, mark := PassesFn(meta, f, parse), AnnotateFn(meta, textById);
    out := [];
    var i := 0;
    while i < |base|
      invariant 0 <= i <= |base|
      invariant out == Select(base[..i], keep, mark)
      invariant |out| < Max(k, 1)
    {
      assert base[..i + 1][..i] == base[..i];
      var r := base[i];
      var m := r.msg;
      var mm := MetaOf(meta, m);
      i := i + 1;
      if f.convId.Some? && f.convId.value != "" && mm.convId != f.convId {
        continue;
      }
      if f.role.Some? && f.role.value != "" && Lower(OrEmpty(mm.role)) != Lower(f.role.value) {
        continue;
      }
      if f.hasCode.Some? && mm.hasCode != f.hasCode.value {
        continue;
      }
      if !Within(OrEmpty(mm.ts), f.after, f.before, parse) {
        continue;
      }
      var snippet := if m in textById && textById[m] != "" then textById[m] else OrEmpty(mm.snippet);
      out := out + [r.(snippet := Some(snippet))];
      if |out| >= k {
        SelectPrefix(base, i, keep, mark);
        return;
      }
    }
    assert base[..i] == base;
  }

  // ------------------------------------------------------- get_conversation

  /** One line of `rows.jsonl` as the conversation view returns it. */
  datatype StoredRow = StoredRow(msg: int, convId: Option<string>, role: string, ts: string, text: string)

  datatype Conversation = Conversation(convId: string, messages: seq<StoredRow>)

  /** The rows whose `conv_id` is `c`, in file order. */
  function ConvRows(rows: seq<StoredRow>, c: string): seq<StoredRow>
  {
    if rows == [] then []
    else ConvRows(rows[..|rows| - 1], c) + (if rows[|rows| - 1].convId == Some(c) then [rows[|rows| - 1]] else [])
  }

  lemma {:induction false} ConvRowsSpec(rows: seq<StoredRow>, c: string)
    ensures forall x :: x in ConvRows(rows, c) <==> x in rows && x.convId == Some(c)
  {
    if rows != [] {
      ConvRowsSpec(rows[..|rows| - 1], c);
      assert rows == rows[..|rows| - 1] + [rows[|rows| - 1]];
    }
  }

  /** `key=lambda x: x.get("msg")` for an ascending sort. */
  function ByMsg(): (StoredRow, StoredRow) -> bool
  {
    (a: StoredRow, b: StoredRow) => a.msg <= b.msg
  }

  lemma {:induction false} ByMsgTotal()
    ensures StableSort.TotalPreorder(ByMsg())
  {
  }

  /** `next((i for i, m in enumerate(msgs) if int(m["msg"]) == c), None)`. */
  function FindMsg(msgs: seq<StoredRow>, c: int): Option<nat>
  {
    FindMsgFrom(msgs, c, 0)
  }

  /** The same search, started at position `k`. */
  function FindMsgFrom(msgs: seq<StoredRow>, c: int, k: nat): Option<nat>
    decreases |msgs| - k
  {
    if k >= |msgs| then None
    else if msgs[k].msg == c then Some(k)
    else FindMsgFrom(msgs, c, k + 1)
  }

  /** The search finds the first message with the id, and fails only when none has it. */
  lemma {:induction false} FindMsgSpec(msgs: seq<StoredRow>, c: int)
    ensures FindMsg(msgs, c).None? <==> forall i :: 0 <= i < |msgs| ==> msgs[i].msg != c
    ensures FindMsg(msgs, c).Some? ==> var i := FindMsg(msgs, c).value;
      i < |msgs| && msgs[i].msg == c && forall j :: 0 <= j < i ==> msgs[j].msg != c
  {
    FindMsgFromSpec(msgs, c, 0);
  }

  lemma {:induction false} FindMsgFromSpec(msgs: seq<StoredRow>, c: int, k: nat)
    requires forall j :: 0 <= j < k && j < |msgs| ==> msgs[j].msg != c
    ensures FindMsgFrom(msgs, c, k).None? <==> forall i :: 0 <= i < |msgs| ==> msgs[i].msg != c
    ensures FindMsgFrom(msgs, c, k).Some? ==> var i := FindMsgFrom(msgs, c, k).value;
      i < |msgs| && msgs[i].msg == c && forall j :: 0 <= j < i ==> msgs[j].msg != c
    decreases |msgs| - k
  {
    if k < |msgs| && msgs[k].msg != c {
      FindMsgFromSpec(msgs, c, k + 1);
    }
  }

  /** The messages returned around `center`, `window` messages on each side. */
  function Window(msgs: seq<StoredRow>, center: Option<int>, w: int): seq<StoredRow>
  {
    match center
      case None => msgs
      case Some(c) =>
        match FindMsg(msgs, c)
          case None => PyTake(msgs, w * 2 + 1)
          case Some(idx) => PySlice(msgs, Max(0, idx - w), Min(|msgs|, idx + w + 1))
  }

  /**
   * With a non-negative window: no centre gives every message; a centre that is not found gives
   * the first `2w+1`; a found centre gives the contiguous run from `w` before it to `w` after it,
   * cut at the ends of the conversation, so it holds the centre and at most `2w+1` messages,
   * exactly `2w+1` unless it touches an end.
   */
  lemma {:induction false} WindowSpec(msgs: seq<StoredRow>, center: Option<int>, w: int)
    requires w >= 0
    ensures center.None? ==> Window(msgs, center, w) == msgs
    ensures center.Some? && (forall i :: 0 <= i < |msgs| ==> msgs[i].msg != center.value) ==>
      Window(msgs, center, w) == msgs[..Min(|msgs|, 2 * w + 1)]
    ensures center.Some? && FindMsg(msgs, center.value).Some? ==>
      var i := FindMsg(msgs, center.value).value;
      var lo, hi := Max(0, i - w), Min(|msgs|, i + w + 1);
      var r := Window(msgs, center, w);
      && lo <= i < hi <= |msgs|
      && r == msgs[lo..hi]
      && r[i - lo].msg == center.value
      && |r| <= 2 * w + 1
      && (|r| == 2 * w + 1 || lo == 0 || hi == |msgs|)
  {
    if center.Some? {
      var found := FindMsg(msgs, center.value);
      if found.Some? {
        WindowFound(msgs, center.value, w, found.value);
      }
      WindowNotFound(msgs, center.value, w);
    }
  }

  lemma {:induction false} WindowNotFound(msgs: seq<StoredRow>, c: int, w: nat)
    ensures (forall i :: 0 <= i < |msgs| ==> msgs[i].msg != c) ==> Window(msgs, Some(c), w) == msgs[..Min(|msgs|, 2 * w + 1)]
  {
    FindMsgSpec(msgs, c);
  }

  lemma {:induction false} WindowFound(msgs: seq<StoredRow>, c: int, w: nat, i: nat)
    requires FindMsg(msgs, c) == Some(i)
    ensures var lo, hi := Max(0, i - w), Min(|msgs|, i + w + 1);
      var r := Window(msgs, Some(c), w);
      && lo <= i < hi <= |msgs|
      && r == msgs[lo..hi]
      && r[i - lo].msg == c
      && |r| <= 2 * w + 1
      && (|r| == 2 * w + 1 || lo == 0 || hi == |msgs|)
  {
    FindMsgSpec(msgs, c);
    WindowAround(msgs, i, w);
  }

  /** The slice of `w` messages either side of position `i`, cut at the ends. */
  lemma {:induction false} WindowAround(msgs: seq<StoredRow>, i: nat, w: nat)
    requires i < |msgs|
    ensures var lo, hi := Max(0, i - w), Min(|msgs|, i + w + 1);
      var r := PySlice(msgs, lo, hi);
      && lo <= i < hi <= |msgs|
      && r == msgs[lo..hi]
      && r[i - lo] == msgs[i]
      && |r| <= 2 * w + 1
      && (|r| == 2 * w + 1 || lo == 0 || hi == |msgs|)
  {
  }

  /** `get_conversation` over `rows.jsonl`: the conversation's rows by ascending id, windowed. */
  function GetConversation(rows: seq<StoredRow>, convId: string, center: Option<int>, w: int): Conversation
  {
    Conversation(convId, Window(StableSort.Sort(ConvRows(rows, convId), ByMsg()), center, w))
  }

  /** Every window is a contiguous run of the messages. */
  lemma {:induction false} WindowIsSlice(msgs: seq<StoredRow>, center: Option<int>, w: int) returns (lo: nat, hi: nat)
    requires w >= 0
    ensures lo <= hi <= |msgs| && Window(msgs, center, w) == msgs[lo..hi]
  {
    if center.None? {
      lo, hi := 0, |msgs|;
    } else {
      var found := FindMsg(msgs, center.value);
      if found.None? {
        FindMsgSpec(msgs, center.value);
        WindowNotFound(msgs, center.value, w);
        lo, hi := 0, Min(|msgs|, 2 * w + 1);
      } else {
        WindowFound(msgs, center.value, w, found.value);
        lo, hi := Max(0, found.value - w), Min(|msgs|, found.value + w + 1);
      }
    }
  }

  /** The conversation's rows sorted by id: the same rows, ascending, ties in file order. */
  lemma {:induction false} SortedConvRows(rows: seq<StoredRow>, c: string)
    ensures var sorted := StableSort.Sort(ConvRows(rows, c), ByMsg());
      && (forall x :: x in sorted <==> x in rows && x.convId == Some(c))
      && (forall i, j :: 0 <= i < j < |sorted| ==> sorted[i].msg <= sorted[j].msg)
  {
    var conv := ConvRows(rows, c);
    var sorted := StableSort.Sort(conv, ByMsg());
    ConvRowsSpec(rows, c);
    ByMsgTotal();
    StableSort.SortSorted(conv, ByMsg());
    forall x ensures x in sorted <==> x in conv {
      assert x in multiset(sorted) <==> x in multiset(conv);
    }
  }

  /**
   * The returned messages all belong to the conversation and ascend by id, and with no centre
   * they are all of its rows, rows with equal ids kept in file order.
   */
  lemma {:induction false} GetConversationSpec(rows: seq<StoredRow>, convId: string, center: Option<int>, w: int)
    requires w >= 0
    ensures var r := GetConversation(rows, convId, center, w).messages;
      && (forall i :: 0 <= i < |r| ==> r[i] in rows && r[i].convId == Some(convId))
      && (forall i, j :: 0 <= i < j < |r| ==> r[i].msg <= r[j].msg)
      && (center.None? ==> multiset(r) == multiset(ConvRows(rows, convId)))
      && (center.None? ==> forall x :: x in rows && x.convId == Some(convId) ==> x in r)
      && (center.None? ==> forall z :: StableSort.TiedWith(r, z, ByMsg()) == StableSort.TiedWith(ConvRows(rows, convId), z, ByMsg()))
  {
    var conv := ConvRows(rows, convId);
    var sorted := StableSort.Sort(conv, ByMsg());
    SortedConvRows(rows, convId);
    var r := Window(sorted, center, w);
    var lo, hi := WindowIsSlice(sorted, center, w);
    forall i | 0 <= i < |r| ensures r[i] in rows && r[i].convId == Some(convId) {
      assert r[i] == sorted[lo + i];
    }
    forall i, j | 0 <= i < j < |r| ensures r[i].msg <= r[j].msg {
      assert r[i] == sorted[lo + i] && r[j] == sorted[lo + j];
    }
    if center.None? {
      ByMsgTotal();
      forall z ensures StableSort.TiedWith(r, z, ByMsg()) == StableSort.TiedWith(conv, z, ByMsg()) {
        StableSort.SortStable(conv, z, ByMsg());
      }
    }
  }
}
