/**
 * `parse.py`: turning a chat export into `rows.jsonl`, `threads.json` and `meta.json`.
 * The export is a JSON value; the clock (`time.time`), the ISO rendering of a timestamp
 * (`time.strftime` of `time.gmtime`) and `str()` of a non-string JSON value are parameters.
 */
module Parse {
  import opened Common
  import opened Strings
  import StableSort

  /** A decoded JSON value; an object keeps its fields in document order. */
  datatype Json =
    | JNull
    | JBool(b: bool)
    | JNum(n: real)
    | JStr(s: string)
    | JList(items: seq<Json>)
    | JObj(fields: seq<(string, Json)>)

  /** Python's truth value of a decoded JSON value. */
  predicate Truthy(j: Json)
  {
    match j
      case JNull => false
      case JBool(b) => b
      case JNum(n) => n != 0.0
      case JStr(s) => s != ""
      case JList(xs) => xs != []
      case JObj(fs) => fs != []
  }

  /** The value bound to `key` in `fields`; the last binding wins, as in `json.loads`. */
  function Lookup(fields: seq<(string, Json)>, key: string): Option<Json>
  {
    if fields == [] then None
    else if fields[|fields| - 1].0 == key then Some(fields[|fields| - 1].1)
    else Lookup(fields[..|fields| - 1], key)
  }

  /** `obj.get(key)`, a value that is not an object read as having no keys. */
  function Get(obj: Json, key: string): Option<Json>
  {
    if obj.JObj? then Lookup(obj.fields, key) else None
  }

  /** Python's `a or b` where `a` is the result of a `.get`. */
  function Or(a: Option<Json>, b: Json): Json
  {
    if a.Some? && Truthy(a.value) then a.value else b
  }

  const EmptyObj := JObj([])

  /** The truth value of `obj.get(key)`. */
  predicate TruthyAt(obj: Json, key: string)
  {
    Truthy(Or(Get(obj, key), JNull))
  }

  // ------------------------------------------------------------------ _has_code

  /** "```" starts at `i`. */
  predicate FenceAt(s: string, i: int)
  {
    0 <= i && i + 3 <= |s| && s[i] == '`' && s[i + 1] == '`' && s[i + 2] == '`'
  }

  /** A match of "`[^`]+`" from `i` to `j`: two backticks around a non-empty backtick-free run. */
  predicate InlineAt(s: string, i: int, j: int)
  {
    0 <= i && i + 1 < j < |s| && s[i] == '`' && s[j] == '`' && forall k :: i < k < j ==> s[k] != '`'
  }

  /** `CODE_FENCE_RE.search`, scanning left to right. */
  function FenceScan(s: string): bool
  {
    if |s| < 3 then false
    else FenceScan(s[..|s| - 1]) || FenceAt(s, |s| - 3)
  }

  /**
   * `INLINE_CODE_RE.search`, scanning left to right: whether a match ended so far, and how many
   * characters follow the last backtick (`None` before the first one).
   */
  function InlineScan(s: string): (bool, Option<nat>)
  {
    if s == [] then (false, None)
    else
      var (found, open) := InlineScan(s[..|s| - 1]);
      if s[|s| - 1] == '`' then (found || (open.Some? && open.value > 0), Some(0))
      else (found, if open.Some? then Some(open.value + 1) else None)
  }

  lemma {:induction false} FenceScanSpec(s: string)
    ensures FenceScan(s) <==> exists i :: FenceAt(s, i)
  {
    if |s| >= 3 {
      var init := s[..|s| - 1];
      FenceScanSpec(init);
      if FenceScan(init) {
        var i :| FenceAt(init, i);
        assert FenceAt(s, i);
      } else {
        forall i | FenceAt(s, i) && i != |s| - 3 ensures FenceAt(init, i) {
        }
      }
    }
  }

  lemma {:induction false} InlineScanOpen(s: string)
    ensures InlineScan(s).1.None? <==> forall k :: 0 <= k < |s| ==> s[k] != '`'
    ensures InlineScan(s).1.Some? ==> var n := InlineScan(s).1.value;
      n < |s| && s[|s| - 1 - n] == '`' && forall k :: |s| - n <= k < |s| ==> s[k] != '`'
  {
    if s != [] {
      var init := s[..|s| - 1];
      InlineScanOpen(init);
      assert forall k :: 0 <= k < |init| ==> s[k] == init[k];
    }
  }

  /** A match that ends at the last character opens at the backtick the scan last saw. */
  lemma {:induction false} InlineLastMatch(s: string)
    requires s != []
    ensures forall i, j :: j == |s| - 1 && InlineAt(s, i, j) ==> InlineScan(s[..|s| - 1]).1 == Some(|s| - 2 - i)
  {
    var init := s[..|s| - 1];
    InlineScanOpen(init);
    forall i, j | j == |s| - 1 && InlineAt(s, i, j) ensures InlineScan(init).1 == Some(|s| - 2 - i) {
      assert init[i] == '`';
      var n := InlineScan(init).1.value;
      assert init[|init| - 1 - n] == '`';
      assert forall k :: i < k < |init| ==> init[k] != '`';
    }
  }

  lemma {:induction false} InlineScanSpec(s: string)
    ensures InlineScan(s).0 <==> exists i, j :: InlineAt(s, i, j)
  {
    if s != [] {
      var init := s[..|s| - 1];
      InlineScanSpec(init);
      InlineLastMatch(s);
      assert forall k :: 0 <= k < |init| ==> s[k] == init[k];
      var (found, open) := InlineScan(init);
      if found {
        var i, j :| InlineAt(init, i, j);
        assert InlineAt(s, i, j);
      } else if s[|s| - 1] == '`' && open.Some? && open.value > 0 {
        InlineScanOpen(init);
        assert InlineAt(s, |init| - 1 - open.value, |s| - 1);
      } else {
        forall i, j | InlineAt(s, i, j) ensures InlineAt(init, i, j) {
        }
      }
    }
  }

  /**
   * `_has_code`: true exactly when the text holds a fence "```" or an inline span: a backtick,
   * a non-empty run without backticks, and a backtick.
   */
  function HasCode(text: string): (r: bool)
    ensures r <==> (exists i :: FenceAt(text, i)) || (exists i, j :: InlineAt(text, i, j))
  {
    FenceScanSpec(text);
    InlineScanSpec(text);
    FenceScan(text) || InlineScan(text).0
  }

  // -------------------------------------------------------------- _message_text

  /** The string parts whose `strip()` is non-empty, unstripped and in order. */
  function TextParts(parts: seq<Json>): (r: seq<string>)
    ensures forall k :: 0 <= k < |r| ==> !IsBlank(r[k])
  {
    if parts == [] then []
    else
      var p := parts[|parts| - 1];
      TextParts(parts[..|parts| - 1]) + (if p.JStr? && !IsBlank(p.s) then [p.s] else [])
  }

  /** `_message_text(msg_obj)`. */
  function MessageText(msg: Json): string
  {
    if !Truthy(msg) then ""
    else
      var content := Or(Get(msg, "content"), EmptyObj);
      match Get(content, "parts")
        case Some(JList(parts)) => Join(TextParts(parts), "\n")
        case _ =>
          match Get(content, "text")
            case Some(JStr(t)) => t
            case _ =>
              match Get(msg, "text")
                case Some(JStr(t2)) => t2
                case _ => ""
  }

  lemma {:induction false} JoinPrefix(parts: seq<string>, sep: string)
    requires parts != []
    ensures |parts[0]| <= |Join(parts, sep)| && Join(parts, sep)[..|parts[0]|] == parts[0]
  {
  }

  /**
   * When `parts` is a list, the text is blank exactly when no part is a non-blank string, and
   * splitting it on newlines gives back the kept parts when none of them holds a newline.
   */
  lemma {:induction false} MessageTextOfParts(msg: Json, parts: seq<Json>)
    requires Truthy(msg) && Get(Or(Get(msg, "content"), EmptyObj), "parts") == Some(JList(parts))
    ensures IsBlank(MessageText(msg)) <==> TextParts(parts) == []
    ensures TextParts(parts) != [] && (forall k, j :: 0 <= k < |TextParts(parts)| && 0 <= j < |TextParts(parts)[k]| ==> TextParts(parts)[k][j] != '\n')
      ==> SplitOn(MessageText(msg), '\n') == TextParts(parts)
  {
    var kept := TextParts(parts);
    assert MessageText(msg) == Join(kept, "\n");
    if kept != [] {
      JoinPrefix(kept, "\n");
      var j :| 0 <= j < |kept[0]| && !IsSpace(kept[0][j]);
      assert Join(kept, "\n")[j] == kept[0][j];
      assert "\n" == ['\n'];
      if forall k, j :: 0 <= k < |kept| && 0 <= j < |kept[k]| ==> kept[k][j] != '\n' {
        SplitOnJoin(kept, '\n');
      }
    }
  }

  /** Without a `parts` list the text falls back to `content.text`, then `msg.text`, then "". */
  lemma {:induction false} MessageTextFallback(msg: Json)
    requires !(Get(Or(Get(msg, "content"), EmptyObj), "parts").Some? && Get(Or(Get(msg, "content"), EmptyObj), "parts").value.JList?)
    ensures var content := Or(Get(msg, "content"), EmptyObj);
      MessageText(msg) ==
        if !Truthy(msg) then ""
        else if Get(content, "text").Some? && Get(content, "text").value.JStr? then Get(content, "text").value.s
        else if Get(msg, "text").Some? && Get(msg, "text").value.JStr? then Get(msg, "text").value.s
        else ""
  {
  }

  // ---------------------------------------------------------------------- _role

  /** `_role(msg_obj)`: `author.role`, else `role`, else "assistant"; never falsy. */
  function Role(msg: Json): (r: Json)
    ensures Truthy(r)
    ensures var a := Get(Or(Get(msg, "author"), EmptyObj), "role");
      a.Some? && Truthy(a.value) ==> r == a.value
    ensures var a, m := Get(Or(Get(msg, "author"), EmptyObj), "role"), Get(msg, "role");
      !(a.Some? && Truthy(a.value)) && m.Some? && Truthy(m.value) ==> r == m.value
    ensures var a, m := Get(Or(Get(msg, "author"), EmptyObj), "role"), Get(msg, "role");
      !(a.Some? && Truthy(a.value)) && !(m.Some? && Truthy(m.value)) ==> r == JStr("assistant")
  {
    var author := Or(Get(msg, "author"), EmptyObj);
    Or(Get(author, "role"), Or(Get(msg, "role"), JStr("assistant")))
  }

  /** `role if role in ("user", "assistant") else "assistant"`. */
  function NormalRole(role: Json): (r: string)
    ensures r == "user" || r == "assistant"
    ensures r == "user" <==> role == JStr("user")
  {
    if role == JStr("user") || role == JStr("assistant") then role.s else "assistant"
  }

  // ----------------------------------------------------------------- _timestamp

  /** `isinstance(v, (int, float))`; a JSON boolean is a Python `int`. */
  function Numeric(v: Option<Json>): Option<real>
  {
    match v
      case Some(JNum(n)) => Some(n)
      case Some(JBool(b)) => Some(if b then 1.0 else 0.0)
      case _ => None
  }

  /** The seconds `_timestamp` settles on. */
  function Seconds(msg: Json, conv: Json, now: real): (sec: real)
    ensures Numeric(Get(msg, "create_time")).Some? ==> sec == Numeric(Get(msg, "create_time")).value
    ensures Numeric(Get(msg, "create_time")).None? && Numeric(Get(msg, "update_time")).Some? ==>
      sec == Numeric(Get(msg, "update_time")).value
    ensures Numeric(Get(msg, "create_time")).None? && Numeric(Get(msg, "update_time")).None? ==>
      sec == if Numeric(Get(conv, "create_time")).Some? then Numeric(Get(conv, "create_time")).value else now
  {
    var keys := ["create_time", "update_time"];
    var own := FirstNumeric(msg, keys);
    if own.Some? then own.value
    else if Numeric(Get(conv, "create_time")).Some? then Numeric(Get(conv, "create_time")).value
    else now
  }

  /** The `for k in (...): ... break` over the message's own time keys. */
  function FirstNumeric(msg: Json, keys: seq<string>): (r: Option<real>)
    ensures keys != [] && Numeric(Get(msg, keys[0])).Some? ==> r == Numeric(Get(msg, keys[0]))
    ensures keys != [] && Numeric(Get(msg, keys[0])).None? ==> r == FirstNumeric(msg, keys[1..])
    ensures keys == [] ==> r.None?
  {
    if keys == [] then None
    else if Numeric(Get(msg, keys[0])).Some? then Numeric(Get(msg, keys[0]))
    else FirstNumeric(msg, keys[1..])
  }

  // ---------------------------------------------------------------- collectors

  /** A collected message, as the collectors build it. */
  datatype Msg = Msg(role: string, text: string, tsIso: string, tsSec: real)

  /** The row one message yields, or `None` when the collector skips it. */
  function Entry(msg: Json, conv: Json, now: real, iso: real -> string): (r: Option<Msg>)
    ensures r.None? <==> Role(msg) == JStr("system") || IsBlank(MessageText(msg))
    ensures r.Some? ==> && (r.value.role == "user" || r.value.role == "assistant")
                        && (r.value.role == "user" <==> Role(msg) == JStr("user"))
                        && r.value.text == MessageText(msg)
                        && r.value.tsSec == Seconds(msg, conv, now)
                        && r.value.tsIso == iso(r.value.tsSec)
  {
    var role := Role(msg);
    if role == JStr("system") then None
    else
      var text := MessageText(msg);
      if IsBlank(text) then None
      else
        var sec := Seconds(msg, conv, now);
        Some(Msg(NormalRole(role), text, iso(sec), sec))
  }

  /** A missing or falsy message is always skipped: its text is empty. */
  lemma {:induction false} FalsyDropped(msg: Json, conv: Json, now: real, iso: real -> string)
    requires !Truthy(msg)
    ensures Entry(msg, conv, now, iso).None?
  {
    assert MessageText(msg) == "";
  }

  /** The present results of `f` over `xs`, in order. */
  function Present<A, B>(xs: seq<A>, f: A -> Option<B>): seq<B>
  {
    if xs == [] then []
    else Present(xs[..|xs| - 1], f) + (if f(xs[|xs| - 1]).Some? then [f(xs[|xs| - 1]).value] else [])
  }

  lemma {:induction false} PresentSpec<A, B>(xs: seq<A>, f: A -> Option<B>)
    ensures forall y :: y in Present(xs, f) <==> exists i :: 0 <= i < |xs| && f(xs[i]) == Some(y)
  {
    if xs != [] {
      var init := xs[..|xs| - 1];
      PresentSpec(init, f);
      assert forall i :: 0 <= i < |init| ==> init[i] == xs[i];
      forall y ensures y in Present(xs, f) <==> exists i :: 0 <= i < |xs| && f(xs[i]) == Some(y) {
        if y in Present(init, f) {
          var i :| 0 <= i < |init| && f(init[i]) == Some(y);
          assert f(xs[i]) == Some(y);
        } else if exists i :: 0 <= i < |xs| && f(xs[i]) == Some(y) {
          var i :| 0 <= i < |xs| && f(xs[i]) == Some(y);
        }
      }
    }
  }

  function EntryFn(conv: Json, now: real, iso: real -> string): Json -> Option<Msg>
  {
    m => Entry(m, conv, now, iso)
  }

  /** The rows of the messages the collector keeps, in input order. */
  function Kept(msgs: seq<Json>, conv: Json, now: real, iso: real -> string): seq<Msg>
  {
    Present(msgs, EntryFn(conv, now, iso))
  }

  function RoleRank(role: string): int { if role == "user" then 0 else 1 }

  /** The sort key `(ts_sec, 0 if user else 1)`, ascending. */
  function ByTime(): (Msg, Msg) -> bool
  {
    (a: Msg, b: Msg) => a.tsSec < b.tsSec || (a.tsSec == b.tsSec && RoleRank(a.role) <= RoleRank(b.role))
  }

  lemma {:induction false} ByTimeTotal()
    ensures StableSort.TotalPreorder(ByTime())
  {
  }

  /** What a collector returns for the messages `msgs` of `conv`. */
  function Collected(msgs: seq<Json>, conv: Json, now: real, iso: real -> string): seq<Msg>
  {
    StableSort.Sort(Kept(msgs, conv, now, iso), ByTime())
  }

  lemma {:induction false} KeptSpec(msgs: seq<Json>, conv: Json, now: real, iso: real -> string)
    ensures forall x :: x in Kept(msgs, conv, now, iso) <==> exists i :: 0 <= i < |msgs| && Entry(msgs[i], conv, now, iso) == Some(x)
  {
    PresentSpec(msgs, EntryFn(conv, now, iso));
  }

  /**
   * The collected rows are exactly the rows of the kept messages (no system role, no blank
   * text, role user or assistant), ordered by time with a user message before an assistant
   * message of the same time, and otherwise in input order.
   */
  lemma {:induction false} CollectedSpec(msgs: seq<Json>, conv: Json, now: real, iso: real -> string)
    ensures var r := Collected(msgs, conv, now, iso);
      && multiset(r) == multiset(Kept(msgs, conv, now, iso))
      && (forall x :: x in r <==> exists i :: 0 <= i < |msgs| && Entry(msgs[i], conv, now, iso) == Some(x))
      && (forall i :: 0 <= i < |r| ==> (r[i].role == "user" || r[i].role == "assistant") && !IsBlank(r[i].text))
      && (forall i, j :: 0 <= i < j < |r| ==>
            r[i].tsSec < r[j].tsSec || (r[i].tsSec == r[j].tsSec && RoleRank(r[i].role) <= RoleRank(r[j].role)))
      && (forall z :: StableSort.TiedWith(r, z, ByTime()) == StableSort.TiedWith(Kept(msgs, conv, now, iso), z, ByTime()))
  {
    var kept := Kept(msgs, conv, now, iso);
    var r := Collected(msgs, conv, now, iso);
    KeptSpec(msgs, conv, now, iso);
    ByTimeTotal();
    StableSort.SortSorted(kept, ByTime());
    forall x ensures x in r <==> x in kept {
      assert x in multiset(r) <==> x in multiset(kept);
    }
    forall i | 0 <= i < |r| ensures (r[i].role == "user" || r[i].role == "assistant") && !IsBlank(r[i].text) {
      assert r[i] in kept;
    }
    forall z ensures StableSort.TiedWith(r, z, ByTime()) == StableSort.TiedWith(kept, z, ByTime()) {
      StableSort.SortStable(kept, z, ByTime());
    }
  }

  // ------------------------------------------------------- the two collectors

  /**
   * The keys of a decoded object in `dict` order: a repeated key keeps the place of its
   * first binding, each key once.
   */
  function Keys(fields: seq<(string, Json)>): (ks: seq<string>)
    ensures Distinct(ks)
    ensures forall k :: k in ks <==> Lookup(fields, k).Some?
  {
    if fields == [] then []
    else
      var ks := Keys(fields[..|fields| - 1]);
      var k := fields[|fields| - 1].0;
      if k in ks then ks else ks + [k]
  }

  /**
   * `obj.values()`: one value per distinct key, in key order, each the value of the key's
   * last binding; anything that is not an object has none.
   */
  function Values(j: Json): (vs: seq<Json>)
    ensures j.JObj? ==> |vs| == |Keys(j.fields)|
    ensures j.JObj? ==> forall i :: 0 <= i < |vs| ==> Lookup(j.fields, Keys(j.fields)[i]) == Some(vs[i])
    ensures !j.JObj? ==> vs == []
  {
    if j.JObj? then
      var ks := Keys(j.fields);
      seq(|ks|, i requires 0 <= i < |ks| => Lookup(j.fields, ks[i]).value)
    else []
  }

  /** A key bound twice is visited once, with the value of its later binding. */
  lemma {:induction false} MappingDuplicateKey(m1: Json, m2: Json)
    ensures MappingMessages(JObj([("mapping", JObj([("x", JObj([("message", m1)])), ("x", JObj([("message", m2)]))]))])) == [m2]
  {
    var fields := [("x", JObj([("message", m1)])), ("x", JObj([("message", m2)]))];
    assert fields[..1] == [("x", JObj([("message", m1)]))];
    assert fields[..1][..0] == [];
    assert Keys(fields[..1]) == ["x"];
    assert Keys(fields) == ["x"];
    assert Lookup(fields, "x") == Some(JObj([("message", m2)]));
    assert Values(JObj(fields)) == [JObj([("message", m2)])];
  }

  /** `node.get("message")`, an absent key read as `null`. */
  function MessageOf(node: Json): Json
  {
    match Get(node, "message")
      case Some(m) => m
      case None => JNull
  }

  /** The messages `_collect_from_mapping` visits: one per node of `conv["mapping"]`. */
  function MappingMessages(conv: Json): seq<Json>
  {
    var nodes := Values(Or(Get(conv, "mapping"), EmptyObj));
    seq(|nodes|, i requires 0 <= i < |nodes| => MessageOf(nodes[i]))
  }

  /** The messages `_collect_msgs_loose` visits: `conv["messages"]`, else `conv["items"]`. */
  function LooseMessages(conv: Json): seq<Json>
  {
    var candidates := Or(Get(conv, "messages"), Or(Get(conv, "items"), JList([])));
    if candidates.JList? then candidates.items else []
  }

  /** `_collect_from_mapping(conv)`. */
  method CollectFromMapping(conv: Json, now: real, iso: real -> string) returns (rows: seq<Msg>)
    ensures rows == Collected(MappingMessages(conv), conv, now, iso)
  {
    var mapping := Or(Get(conv, "mapping"), EmptyObj);
    var nodes := Values(mapping);
    ghost var msgs := MappingMessages(conv);
    rows := [];
    for i := 0 to |nodes|
      invariant rows == Kept(msgs[..i], conv, now, iso)
    {
      assert msgs[..i + 1][..i] == msgs[..i];
      var msg := Get(nodes[i], "message");
      if msg.None? || !Truthy(msg.value) {
        FalsyDropped(msgs[i], conv, now, iso);
        continue;
      }
      var row := CollectOne(msg.value, conv, now, iso);
      rows := rows + row;
    }
    assert msgs[..|nodes|] == msgs;
    rows := StableSort.Sort(rows, ByTime());
  }

  /** `_collect_msgs_loose(conv)`. */
  method CollectMsgsLoose(conv: Json, now: real, iso: real -> string) returns (rows: seq<Msg>)
    ensures rows == Collected(LooseMessages(conv), conv, now, iso)
  {
    var candidates := Or(Get(conv, "messages"), Or(Get(conv, "items"), JList([])));
    var msgs := if candidates.JList? then candidates.items else [];
    rows := [];
    for i := 0 to |msgs|
      invariant rows == Kept(msgs[..i], conv, now, iso)
    {
      assert msgs[..i + 1][..i] == msgs[..i];
      var row := CollectOne(msgs[i], conv, now, iso);
      rows := rows + row;
    }
    assert msgs[..|msgs|] == msgs;
    rows := StableSort.Sort(rows, ByTime());
  }

  /** The body both collector loops share: skip a system or blank message, else build its row. */
  method CollectOne(msg: Json, conv: Json, now: real, iso: real -> string) returns (row: seq<Msg>)
    ensures row == if Entry(msg, conv, now, iso).Some? then [Entry(msg, conv, now, iso).value] else []
  {
    var role := Role(msg);
    if role == JStr("system") {
      return [];
    }
    var text := MessageText(msg);
    if IsBlank(text) {
      return [];
    }
    var sec := Seconds(msg, conv, now);
    var nrole := if role == JStr("user") || role == JStr("assistant") then role.s else "assistant";
    row := [Msg(nrole, text, iso(sec), sec)];
  }

  /** The collector `parse_export` picks: the mapping one when `conv["mapping"]` is truthy. */
  function ConvMessages(conv: Json, now: real, iso: real -> string): seq<Msg>
  {
    if TruthyAt(conv, "mapping") then Collected(MappingMessages(conv), conv, now, iso)
    else Collected(LooseMessages(conv), conv, now, iso)
  }

  // --------------------------------------------------------------- parse_export

  /** One line of `rows.jsonl`. */
  datatype RowRecord = RowRecord(msg: int, convId: string, title: Json, ts: string, role: string, text: string, hasCode: bool)

  /** One entry of `meta.json`. */
  datatype MetaRecord = MetaRecord(convId: string, title: Json, len: nat, ts: string, hasCode: bool, role: string)

  /** `len(WORD_RE.findall(text.lower()))`. */
  function WordCount(text: string): nat
  {
    |Runs(Lower(text), IsLowerAlnum)|
  }

  lemma {:induction false} ConcatLength(ss: seq<string>)
    requires forall k :: 0 <= k < |ss| ==> |ss[k]| > 0
    ensures |Concat(ss)| >= |ss|
  {
    if ss != [] {
      ConcatLength(ss[1..]);
    }
  }

  lemma {:induction false} ClassCharsLength(s: string, inClass: char -> bool)
    ensures |ClassChars(s, inClass)| <= |s|
    ensures ClassChars(s, inClass) == [] <==> forall i :: 0 <= i < |s| ==> !inClass(s[i])
  {
    if s != [] {
      ClassCharsLength(s[1..], inClass);
      assert forall i :: 1 <= i < |s| ==> s[i] == s[1..][i - 1];
    }
  }

  /**
   * The word count is at most the text's length, and is zero exactly when the lowered text has
   * no ASCII letter or digit.
   */
  lemma {:induction false} WordCountSpec(text: string)
    ensures WordCount(text) <= |text|
    ensures WordCount(text) == 0 <==> forall i :: 0 <= i < |text| ==> !IsLowerAlnum(Lower(text)[i])
  {
    var low := Lower(text);
    var runs := Runs(low, IsLowerAlnum);
    RunsWellFormed(low, IsLowerAlnum);
    RunsCoverClass(low, IsLowerAlnum);
    ConcatLength(runs);
    ClassCharsLength(low, IsLowerAlnum);
    if runs == [] {
      assert Concat(runs) == [];
    }
  }

  /** The meta entry written beside a row. */
  function MetaFor(row: RowRecord): MetaRecord
  {
    MetaRecord(row.convId, row.title, WordCount(row.text), row.ts, row.hasCode, row.role)
  }

  /** The rows `emit` writes for `msgs`, numbered from `start`. */
  function NewRows(convId: string, title: Json, msgs: seq<Msg>, start: int): (r: seq<RowRecord>)
    ensures |r| == |msgs|
  {
    seq(|msgs|, j requires 0 <= j < |msgs| =>
      RowRecord(start + j, convId, title, msgs[j].tsIso, msgs[j].role, msgs[j].text, HasCode(msgs[j].text)))
  }

  /** The ids of the rows of conversation `c`, in row order. */
  function IdsOf(rows: seq<RowRecord>, c: string): seq<int>
  {
    if rows == [] then []
    else IdsOf(rows[..|rows| - 1], c) + (if rows[|rows| - 1].convId == c then [rows[|rows| - 1].msg] else [])
  }

  function Range(start: int, n: nat): (r: seq<int>)
    ensures |r| == n && forall j :: 0 <= j < n ==> r[j] == start + j
  {
    seq(n, j requires 0 <= j < n => start + j)
  }

  lemma {:induction false} IdsOfNewRows(rows: seq<RowRecord>, convId: string, title: Json, msgs: seq<Msg>, start: int, c: string)
    ensures IdsOf(rows + NewRows(convId, title, msgs, start), c)
         == IdsOf(rows, c) + (if c == convId then Range(start, |msgs|) else [])
  {
    IdsOfAppend(rows, NewRows(convId, title, msgs, start), c);
    IdsOfBlock(convId, title, msgs, start, c);
  }

  lemma {:induction false} IdsOfBlock(convId: string, title: Json, msgs: seq<Msg>, start: int, c: string)
    ensures IdsOf(NewRows(convId, title, msgs, start), c) == (if c == convId then Range(start, |msgs|) else [])
  {
    if msgs == [] {
      assert NewRows(convId, title, msgs, start) == [];
    } else {
      var k := |msgs| - 1;
      IdsOfBlock(convId, title, msgs[..k], start, c);
      var last := RowRecord(start + k, convId, title, msgs[k].tsIso, msgs[k].role, msgs[k].text, HasCode(msgs[k].text));
      NewRowsStep(convId, title, msgs, start, k);
      assert msgs[..k + 1] == msgs;
      IdsOfSnoc(NewRows(convId, title, msgs[..k], start), last, c);
      if c == convId {
        assert Range(start, |msgs|) == Range(start, k) + [start + k];
      }
    }
  }

  lemma {:induction false} IdsOfAppend(a: seq<RowRecord>, b: seq<RowRecord>, c: string)
    ensures IdsOf(a + b, c) == IdsOf(a, c) + IdsOf(b, c)
  {
    if b == [] {
      assert a + b == a;
    } else {
      var k := |b| - 1;
      IdsOfAppend(a, b[..k], c);
      assert a + b == (a + b[..k]) + [b[k]];
      assert b == b[..k] + [b[k]];
      IdsOfSnoc(a + b[..k], b[k], c);
      IdsOfSnoc(b[..k], b[k], c);
    }
  }

  lemma {:induction false} SnocAfter(a: seq<RowRecord>, b: seq<RowRecord>, row: RowRecord)
    ensures (a + b) + [row] == a + (b + [row])
  {
  }

  lemma {:induction false} IdsOfSnoc(rows: seq<RowRecord>, row: RowRecord, c: string)
    ensures IdsOf(rows + [row], c) == IdsOf(rows, c) + (if row.convId == c then [row.msg] else [])
  {
    assert (rows + [row])[..|rows|] == rows;
  }

  /** `str(conv.get("id") or conv.get("conversation_id") or f"c_{idx}")`. */
  function ConvIdOf(conv: Json, idx: nat, render: Json -> string): (r: string)
    ensures !Truthy(Or(Get(conv, "id"), Or(Get(conv, "conversation_id"), JNull))) ==> r == "c_" + NatToString(idx)
  {
    var j := Or(Get(conv, "id"), Or(Get(conv, "conversation_id"), JStr("c_" + NatToString(idx))));
    if j.JStr? then j.s else render(j)
  }

  /** `conv.get("title") or f"Conversation {idx}"`. */
  function TitleOf(conv: Json, idx: nat): Json
  {
    Or(Get(conv, "title"), JStr("Conversation " + NatToString(idx)))
  }

  /** Every row `parse_export` writes for `convs`, the i-th conversation numbered i + 1. */
  function ExportRows(convs: seq<Json>, now: real, iso: real -> string, render: Json -> string): seq<RowRecord>
  {
    if convs == [] then []
    else
      var prev := ExportRows(convs[..|convs| - 1], now, iso, render);
      var conv, idx := convs[|convs| - 1], |convs|;
      prev + NewRows(ConvIdOf(conv, idx, render), TitleOf(conv, idx), ConvMessages(conv, now, iso), |prev|)
  }

  function TotalMessages(convs: seq<Json>, now: real, iso: real -> string): nat
  {
    if convs == [] then 0
    else TotalMessages(convs[..|convs| - 1], now, iso) + |ConvMessages(convs[|convs| - 1], now, iso)|
  }

  /**
   * The export writes one row per collected message of every conversation, numbered 0, 1, 2, ...
   * across conversations, each row marked with its text's code flag.
   */
  lemma {:induction false} ExportRowsSpec(convs: seq<Json>, now: real, iso: real -> string, render: Json -> string)
    ensures var rows := ExportRows(convs, now, iso, render);
      && |rows| == TotalMessages(convs, now, iso)
      && (forall i :: 0 <= i < |rows| ==> rows[i].msg == i)
      && (forall i :: 0 <= i < |rows| ==> rows[i].hasCode == HasCode(rows[i].text) && !IsBlank(rows[i].text))
  {
    if convs != [] {
      var init := convs[..|convs| - 1];
      ExportRowsSpec(init, now, iso, render);
      var conv := convs[|convs| - 1];
      var msgs := ConvMessages(conv, now, iso);
      if TruthyAt(conv, "mapping") {
        CollectedSpec(MappingMessages(conv), conv, now, iso);
      } else {
        CollectedSpec(LooseMessages(conv), conv, now, iso);
      }
      var prev := ExportRows(init, now, iso, render);
      NumberedRowsExtend(prev, ConvIdOf(conv, |convs|, render), TitleOf(conv, |convs|), msgs);
    }
  }

  /** Rows numbered by position, each with its text's code flag and a non-blank text. */
  ghost predicate NumberedRows(rows: seq<RowRecord>)
  {
    forall i :: 0 <= i < |rows| ==> rows[i].msg == i && rows[i].hasCode == HasCode(rows[i].text) && !IsBlank(rows[i].text)
  }

  lemma {:induction false} NumberedRowsExtend(prev: seq<RowRecord>, convId: string, title: Json, msgs: seq<Msg>)
    requires NumberedRows(prev)
    requires forall j :: 0 <= j < |msgs| ==> !IsBlank(msgs[j].text)
    ensures NumberedRows(prev + NewRows(convId, title, msgs, |prev|))
  {
    var rows := prev + NewRows(convId, title, msgs, |prev|);
    forall i | 0 <= i < |rows|
      ensures rows[i].msg == i && rows[i].hasCode == HasCode(rows[i].text) && !IsBlank(rows[i].text)
    {
      if i >= |prev| {
        assert rows[i] == NewRows(convId, title, msgs, |prev|)[i - |prev|];
      }
    }
  }

  /**
   * The state `emit` shares with `parse_export`: the `msg_auto` counter and the `meta` and
   * `threads` dictionaries, with the lines appended to `rows.jsonl` so far.
   */
  class Exporter {
    var msgAuto: nat
    var rows: seq<RowRecord>
    var meta: map<int, MetaRecord>
    var threads: map<string, seq<int>>

    /**
     * Row i has id i; `meta` has exactly one entry per row, derived from it; `threads` holds
     * exactly the conversations that have rows, each with its row ids in order.
     */
    ghost predicate Valid()
      reads this
    {
      RowsValid() && ThreadsMatch(threads, rows)
    }

    constructor()
      ensures Valid() && rows == [] && threads == map[]
    {
      msgAuto, rows, meta, threads := 0, [], map[], map[];
    }

    /** Rows and meta entries of `Valid`, without the threads. */
    ghost predicate RowsValid()
      reads this
    {
      msgAuto == |rows| && RowsMeta(rows, meta)
    }

    /** `emit(conv_id, title, msgs)`. */
    method Emit(convId: string, title: Json, msgs: seq<Msg>)
      requires Valid()
      modifies this
      ensures Valid()
      ensures rows == old(rows) + NewRows(convId, title, msgs, old(msgAuto))
      ensures msgs == [] ==> threads == old(threads)
      ensures msgs != [] ==> threads == old(threads)[convId :=
        (if convId in old(threads) then old(threads)[convId] else []) + Range(old(msgAuto), |msgs|)]
    {
      var ordered := AppendRows(convId, title, msgs);
      forall c ensures IdsOf(rows, c) == IdsOf(old(rows), c) + (if c == convId then ordered else []) {
        IdsOfNewRows(old(rows), convId, title, msgs, old(msgAuto), c);
      }
      ExtendThreads(threads, old(rows), rows, convId, ordered);
      if ordered != [] {
        threads := threads[convId := (if convId in threads then threads[convId] else []) + ordered];
      }
    }

    /** The loop of `emit`: one row and one meta entry per message, under fresh ids. */
    method AppendRows(convId: string, title: Json, msgs: seq<Msg>) returns (ordered: seq<int>)
      requires RowsValid()
      modifies this
      ensures RowsValid()
      ensures rows == old(rows) + NewRows(convId, title, msgs, old(msgAuto))
      ensures ordered == Range(old(msgAuto), |msgs|)
      ensures threads == old(threads)
    {
      ordered := [];
      for j := 0 to |msgs|
        invariant RowsValid()
        invariant msgAuto == old(msgAuto) + j
        invariant rows == old(rows) + NewRows(convId, title, msgs[..j], old(msgAuto))
        invariant ordered == Range(old(msgAuto), j)
        invariant threads == old(threads)
      {
        NewRowsStep(convId, title, msgs, old(msgAuto), j);
        SnocAfter(old(rows), NewRows(convId, title, msgs[..j], old(msgAuto)), RowRecord(msgAuto, convId, title, msgs[j].tsIso, msgs[j].role, msgs[j].text, HasCode(msgs[j].text)));
        assert Range(old(msgAuto), j + 1) == Range(old(msgAuto), j) + [msgAuto];
        var msgId := AddRow(convId, title, msgs[j]);
        ordered := ordered + [msgId];
      }
      assert msgs[..|msgs|] == msgs;
    }

    /** One iteration of the loop of `emit`: the next id, its row and its meta entry. */
    method AddRow(convId: string, title: Json, m: Msg) returns (msgId: int)
      requires RowsValid()
      modifies this
      ensures RowsValid()
      ensures msgId == old(msgAuto) && msgAuto == old(msgAuto) + 1
      ensures rows == old(rows) + [RowRecord(msgId, convId, title, m.tsIso, m.role, m.text, HasCode(m.text))]
      ensures threads == old(threads)
    {
      var text := m.text;
      msgId := msgAuto;
      var hasCode := HasCode(text);
      var row := RowRecord(msgId, convId, title, m.tsIso, m.role, text, hasCode);
      RowsMetaStep(rows, meta, row);
      msgAuto := msgAuto + 1;
      rows := rows + [row];
      meta := meta[msgId := MetaRecord(convId, title, WordCount(text), m.tsIso, hasCode, m.role)];
    }
  }

  /** Row i has id i, and `meta` has exactly one entry per row, derived from it. */
  ghost predicate RowsMeta(rows: seq<RowRecord>, meta: map<int, MetaRecord>)
  {
    && (forall i :: 0 <= i < |rows| ==> rows[i].msg == i)
    && (forall i :: i in meta <==> 0 <= i < |rows|)
    && (forall i :: 0 <= i < |rows| ==> meta[i] == MetaFor(rows[i]))
    && |meta| == |rows|
  }

  lemma {:induction false} RowsMetaStep(rows: seq<RowRecord>, meta: map<int, MetaRecord>, row: RowRecord)
    requires RowsMeta(rows, meta) && row.msg == |rows|
    ensures RowsMeta(rows + [row], meta[row.msg := MetaFor(row)])
  {
    var rows', meta' := rows + [row], meta[row.msg := MetaFor(row)];
    assert |rows| !in meta;
    assert meta'.Keys == meta.Keys + {|rows|};
    forall i | 0 <= i < |rows'| ensures rows'[i].msg == i && meta'[i] == MetaFor(rows'[i]) {
      if i < |rows| {
        assert rows'[i] == rows[i];
      }
    }
  }

  /** `threads` holds exactly the conversations with rows, each with its row ids in order. */
  ghost predicate ThreadsMatch(threads: map<string, seq<int>>, rows: seq<RowRecord>)
  {
    && (forall c :: c in threads <==> IdsOf(rows, c) != [])
    && (forall c :: c in threads ==> threads[c] == IdsOf(rows, c))
  }

  /** `threads.setdefault(conv_id, []).extend(ordered)` keeps the threads matching the rows. */
  lemma {:induction false} ExtendThreads(threads: map<string, seq<int>>, rows: seq<RowRecord>, rows2: seq<RowRecord>,
                      convId: string, ordered: seq<int>)
    requires ThreadsMatch(threads, rows)
    requires forall c :: IdsOf(rows2, c) == IdsOf(rows, c) + (if c == convId then ordered else [])
    ensures ThreadsMatch(
      if ordered != [] then threads[convId := (if convId in threads then threads[convId] else []) + ordered] else threads,
      rows2)
  {
    ExtendMap(threads, c => IdsOf(rows, c), c => IdsOf(rows2, c), convId, ordered);
  }

  lemma {:induction false} ExtendMap(threads: map<string, seq<int>>, before: string -> seq<int>, after: string -> seq<int>,
                  convId: string, ordered: seq<int>)
    requires forall c :: c in threads <==> before(c) != []
    requires forall c :: c in threads ==> threads[c] == before(c)
    requires forall c :: after(c) == before(c) + (if c == convId then ordered else [])
    ensures var t := if ordered != [] then threads[convId := (if convId in threads then threads[convId] else []) + ordered] else threads;
      && (forall c :: c in t <==> after(c) != [])
      && (forall c :: c in t ==> t[c] == after(c))
  {
    var t := if ordered != [] then threads[convId := (if convId in threads then threads[convId] else []) + ordered] else threads;
    forall c ensures (c in t <==> after(c) != []) && (c in t ==> t[c] == after(c)) {
      if c == convId && ordered != [] {
        assert after(c) == before(c) + ordered;
      } else {
        assert after(c) == before(c);
      }
    }
  }

  lemma {:induction false} NewRowsStep(convId: string, title: Json, msgs: seq<Msg>, start: int, j: int)
    requires 0 <= j < |msgs|
    ensures NewRows(convId, title, msgs[..j + 1], start)
         == NewRows(convId, title, msgs[..j], start)
            + [RowRecord(start + j, convId, title, msgs[j].tsIso, msgs[j].role, msgs[j].text, HasCode(msgs[j].text))]
  {
  }

  /**
   * `parse_export` over the decoded conversations: every conversation is counted, one without
   * messages included, and the message count is the number of `meta` entries.
   */
  method ParseExport(convs: seq<Json>, now: real, iso: real -> string, render: Json -> string)
    returns (e: Exporter, convCount: nat, msgCount: nat)
    ensures fresh(e) && e.Valid()
    ensures e.rows == ExportRows(convs, now, iso, render)
    ensures convCount == |convs| && msgCount == |e.meta| == TotalMessages(convs, now, iso)
  {
    e := new Exporter();
    convCount := 0;
    for k := 0 to |convs|
      invariant e.Valid() && convCount == k
      invariant e.rows == ExportRows(convs[..k], now, iso, render)
    {
      assert convs[..k + 1][..k] == convs[..k];
      var conv := convs[k];
      var idx := k + 1;
      convCount := convCount + 1;
      var convId := ConvIdOf(conv, idx, render);
      var title := TitleOf(conv, idx);
      var msgs;
      if TruthyAt(conv, "mapping") {
        msgs := CollectFromMapping(conv, now, iso);
      } else {
        msgs := CollectMsgsLoose(conv, now, iso);
      }
      if msgs == [] {
        continue;
      }
      e.Emit(convId, title, msgs);
    }
    assert convs[..|convs|] == convs;
    ExportRowsSpec(convs, now, iso, render);
    msgCount := |e.meta|;
  }
}
