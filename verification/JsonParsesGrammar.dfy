/** The parser accepts every text of the grammar, as the tree it stands for. */
module JsonParsesGrammar {
  import opened Wrappers
  import opened OrderedJson
  import opened JsonGrammar
  import opened JsonAutomaton
  import opened JsonParsing

  // ---------------------------------------------------------------- feeding pieces

  lemma ConsumeDone(p: Parser, prev: char, c: char, q: Parser)
    requires Inv(p, prev) && StepOn(p, prev, c) == Next(q, true)
    ensures Consume(p, prev, c) == Running(q, c)
  {
  }

  lemma ConsumeAgain(p: Parser, prev: char, c: char, q: Parser)
    requires Inv(p, prev) && StepOn(p, prev, c) == Next(q, false)
    ensures Inv(q, prev) && Consume(p, prev, c) == Consume(q, prev, c)
  {
    StepKeeps(p, prev, c);
  }

  lemma FeedOne(r: Running, c: char)
    requires Healthy(r) && r.Running?
    ensures Feed(r, [c]) == Consume(r.parser, r.prev, c)
  {
    assert [c][1..] == "";
    var q := Consume(r.parser, r.prev, c);
    assert Feed(q, "") == q;
  }

  /** In these states whitespace changes nothing. */
  predicate Idle(p: Parser) {
    p.pending.None? && p.stack != [] &&
    (Top(p.stack).Placeholder? || Top(p.stack).InMap? || Top(p.stack).InList? || Top(p.stack) == KeyValue("", 0))
  }

  lemma {:induction false} FeedBlank(r: Running, s: string)
    requires Healthy(r) && r.Running? && Idle(r.parser) && Blank(s)
    ensures Feed(r, s).Running? && Feed(r, s).parser == r.parser
    decreases |s|
  {
    if s != "" {
      var c := s[0];
      assert IsSpace(c);
      assert ReplaceTop(r.parser.stack, Top(r.parser.stack)) == r.parser.stack;
      ConsumeDone(r.parser, r.prev, c, r.parser);
      FeedBlank(Consume(r.parser, r.prev, c), s[1..]);
    }
  }

  // ---------------------------------------------------------------- quoted texts

  /** The next byte of a quotable text never closes it, and the quote after it does. */
  lemma NextOfQuotable(b: string, rest: string)
    requires Open(b) && Quotable((b + rest)[1..])
    ensures rest == "" ==> b[|b| - 1] != '\\'
    ensures rest != "" ==> !(rest[0] == '"' && b[|b| - 1] != '\\') && Open(b + [rest[0]])
                           && b + rest == (b + [rest[0]]) + rest[1..]
  {
    var s := (b + rest)[1..];
    if rest == "" {
      assert s == b[1..];
      if |b| > 1 {
        assert s[|s| - 1] == b[|b| - 1];
      }
    } else {
      assert s[|b| - 1] == rest[0];
      if rest[0] == '"' {
        assert s[|b| - 2] == b[|b| - 1];
      }
      OpenExtends(b, rest[0]);
    }
  }

  lemma {:induction false} FeedQuoted(r: Running, s: seq<State>, b: string, rest: string)
    requires Healthy(r) && r.Running? && r.parser == Parser(Push(s, Single(b, true)), None)
    requires Open(b) && Quotable((b + rest)[1..])
    ensures var q := Feed(r, rest + "\""); q.Running? && q.parser == Parser(s, Some(JString((b + rest)[1..])))
    decreases |rest|
  {
    hide Quotable, Finalize;
    NextOfQuotable(b, rest);
    if rest == "" {
      assert b + rest == b && rest + "\"" == ['"'];
      OpenCloses(b);
      ConsumeDone(r.parser, r.prev, '"', Parser(s, Some(JString(b[1..]))));
      FeedOne(r, '"');
    } else {
      var c := rest[0];
      ConsumeDone(r.parser, r.prev, c, Parser(Push(s, Single(b + [c], true)), None));
      assert (rest + "\"")[1..] == rest[1..] + "\"";
      FeedQuoted(Consume(r.parser, r.prev, c), s, b + [c], rest[1..]);
    }
  }

  lemma {:induction false} FeedKey(r: Running, s: seq<State>, b: string, rest: string)
    requires Healthy(r) && r.Running? && r.parser == Parser(Push(s, KeyValue(b, 0)), None)
    requires Open(b) && Quotable((b + rest)[1..])
    ensures var q := Feed(r, rest + "\"");
      q.Running? && q.parser == Parser(Push(s, KeyValue(b + rest + "\"", 1)), None)
    decreases |rest|
  {
    NextOfQuotable(b, rest);
    if rest == "" {
      assert b + rest == b && rest + "\"" == ['"'];
      ConsumeDone(r.parser, r.prev, '"', Parser(Push(s, KeyValue(b + "\"", 1)), None));
      FeedOne(r, '"');
    } else {
      var c := rest[0];
      ConsumeDone(r.parser, r.prev, c, Parser(Push(s, KeyValue(b + [c], 0)), None));
      assert (rest + "\"")[1..] == rest[1..] + "\"";
      FeedKey(Consume(r.parser, r.prev, c), s, b + [c], rest[1..]);
    }
  }

  // ---------------------------------------------------------------- finished values

  function FlagText(b: bool): string {
    if b then "true" else "false"
  }

  /** The value has been read; a boolean still waits for the byte that ends it. */
  predicate Completed(r: Running, s: seq<State>, j: Json) {
    r.Running? &&
    (r.parser == Parser(s, Some(j))
     || (j.JBool? && r.parser == Parser(Push(s, Single(FlagText(j.flag), false)), None)))
  }

  lemma AfterValue(r: Running, s: seq<State>, j: Json, c: char)
    requires Healthy(r) && Completed(r, s, j) && (IsSpace(c) || c in {',', ']', '}'})
    requires Inv(Parser(s, Some(j)), r.prev)
    ensures Consume(r.parser, r.prev, c) == Consume(Parser(s, Some(j)), r.prev, c)
  {
    if r.parser != Parser(s, Some(j)) {
      ConsumeAgain(r.parser, r.prev, c, Parser(s, Some(j)));
    }
  }

  lemma ReceiverOk(r: Running, s: seq<State>, j: Json, prev: char)
    requires Healthy(r) && r.Running? && r.parser == Parser(Push(s, Placeholder), None) && Printable(j)
    ensures Inv(Parser(s, Some(j)), prev)
  {
  }

  lemma {:induction false} FeedBool(r: Running, s: seq<State>, b: bool)
    requires Healthy(r) && r.Running? && r.parser == Parser(Push(s, Placeholder), None)
    ensures var q := Feed(r, FlagText(b)); q.Running? && q.parser == Parser(Push(s, Single(FlagText(b), false)), None)
  {
    hide Inv, Printable, Finalize;
    var t := FlagText(b);
    ConsumeAgain(r.parser, r.prev, t[0], Parser(Push(s, Single("", false)), None));
    ConsumeDone(Parser(Push(s, Single("", false)), None), r.prev, t[0], Parser(Push(s, Single([t[0]], false)), None));
    FeedRest(Consume(r.parser, r.prev, t[0]), s, [t[0]], t[1..]);
    assert [t[0]] + t[1..] == t;
  }

  lemma {:induction false} FeedRest(r: Running, s: seq<State>, b: string, rest: string)
    requires Healthy(r) && r.Running? && r.parser == Parser(Push(s, Single(b, false)), None) && b != ""
    requires forall i :: 0 <= i < |rest| ==> rest[i] !in {']', '}', ',', ' ', '\n', '\r', '\t'}
    ensures var q := Feed(r, rest); q.Running? && q.parser == Parser(Push(s, Single(b + rest, false)), None)
    decreases |rest|
  {
    if rest == "" {
      assert b + rest == b;
    } else {
      var c := rest[0];
      ConsumeDone(r.parser, r.prev, c, Parser(Push(s, Single(b + [c], false)), None));
      assert b + rest == (b + [c]) + rest[1..];
      FeedRest(Consume(r.parser, r.prev, c), s, b + [c], rest[1..]);
    }
  }

  lemma FeedString(r: Running, s: seq<State>, text: string)
    requires Healthy(r) && r.Running? && r.parser == Parser(Push(s, Placeholder), None) && Quotable(text)
    ensures Completed(Feed(r, "\"" + text + "\""), s, JString(text))
  {
    var p1 := Parser(Push(s, Single("", false)), None);
    var p2 := Parser(Push(s, Single("\"", true)), None);
    ConsumeAgain(r.parser, r.prev, '"', p1);
    ConsumeDone(p1, r.prev, '"', p2);
    FeedOne(r, '"');
    FeedConcat(r, "\"", text + "\"");
    assert "\"" + text + "\"" == "\"" + (text + "\"");
    assert ("\"" + text)[1..] == text;
    FeedQuoted(Feed(r, "\""), s, "\"", text);
  }

  // ---------------------------------------------------------------- separators

  /** The parser after a list so far and a comma or a bracket. */
  function ListThen(s: seq<State>, items: seq<Json>, end: char): Parser {
    if end == ',' then Parser(Push(Push(s, InList(items)), Placeholder), None) else Parser(s, Some(JList(items)))
  }

  /** Waiting for the comma or the bracket after an item, the parser passes over every other byte. */
  lemma SkipsByte(r: Running, s: seq<State>, items: seq<Json>, c: char)
    requires Healthy(r) && r.Running? && r.parser == Parser(Push(s, InList(items)), None) && items != []
    ensures Feed(r, [c]) == Running(r.parser, c) <==> c != ']' && c != ','
  {
    FeedOne(r, c);
    assert ReplaceTop(r.parser.stack, InList(items)) == r.parser.stack;
    var q := if c == ']' then Parser(s, Some(JList(items)))
             else if c == ',' then Parser(Push(r.parser.stack, Placeholder), None) else r.parser;
    ConsumeDone(r.parser, r.prev, c, q);
  }

  lemma {:induction false} SkipsText(r: Running, s: seq<State>, items: seq<Json>, text: string)
    requires Healthy(r) && r.Running? && r.parser == Parser(Push(s, InList(items)), None) && items != []
    requires ']' !in text && ',' !in text
    ensures var q := Feed(r, text); q.Running? && q.parser == r.parser
    decreases |text|
  {
    if text != "" {
      SkipsByte(r, s, items, text[0]);
      FeedOne(r, text[0]);
      SkipsText(Consume(r.parser, r.prev, text[0]), s, items, text[1..]);
    }
  }

  /** What may follow an item, and the comma or bracket after it. */
  lemma AfterItem(r: Running, s: seq<State>, items: seq<Json>, v: Value, after: string, end: char)
    requires Healthy(r) && Completed(r, Push(s, InList(items)), Tree(v)) && MayFollow(v, after) && end in {',', ']'}
    requires Inv(Parser(Push(s, InList(items)), Some(Tree(v))), r.prev)
    ensures var q := Feed(r, after + [end]); q.Running? && q.parser == ListThen(s, items + [Tree(v)], end)
  {
    hide Inv, Consume, Feed, Finalize, Printable, ListThen, Tree;
    if after == "" {
      assert after + [end] == [end];
      AfterValue(r, Push(s, InList(items)), Tree(v), end);
      TakesItem(s, items, Tree(v), r.prev, end);
      FeedOne(r, end);
    } else {
      JunkAfterItem(r, s, items, v, after);
      FeedConcat(r, after, [end]);
      EndsItem(Feed(r, after), s, items + [Tree(v)], end);
    }
  }

  lemma TakesItem(s: seq<State>, items: seq<Json>, j: Json, prev: char, end: char)
    requires Inv(Parser(Push(s, InList(items)), Some(j)), prev) && end in {',', ']'}
    ensures Consume(Parser(Push(s, InList(items)), Some(j)), prev, end) == Running(ListThen(s, items + [j], end), end)
  {
    ConsumeDone(Parser(Push(s, InList(items)), Some(j)), prev, end, ListThen(s, items + [j], end));
  }

  lemma JunkAfterItem(r: Running, s: seq<State>, items: seq<Json>, v: Value, after: string)
    requires Healthy(r) && Completed(r, Push(s, InList(items)), Tree(v)) && MayFollow(v, after) && after != ""
    requires Inv(Parser(Push(s, InList(items)), Some(Tree(v))), r.prev)
    ensures var q := Feed(r, after); q.Running? && q.parser == Parser(Push(s, InList(items + [Tree(v)])), None)
  {
    hide Finalize, Printable, Tree;
    var j, c := Tree(v), after[0];
    assert c in after;
    FlagTree(v);
    if r.parser != Parser(Push(s, InList(items)), Some(j)) {
      AfterValue(r, Push(s, InList(items)), j, c);
    }
    ConsumeDone(Parser(Push(s, InList(items)), Some(j)), r.prev, c, Parser(Push(s, InList(items + [j])), None));
    SkipsText(Consume(r.parser, r.prev, c), s, items + [j], after[1..]);
  }

  lemma FlagTree(v: Value)
    ensures Tree(v).JBool? <==> v.Flag?
  {
  }

  lemma EndsItem(r: Running, s: seq<State>, items: seq<Json>, end: char)
    requires Healthy(r) && r.Running? && r.parser == Parser(Push(s, InList(items)), None) && items != []
    requires end in {',', ']'}
    ensures var q := Feed(r, [end]); q.Running? && q.parser == ListThen(s, items, end)
  {
    assert ReplaceTop(r.parser.stack, InList(items)) == r.parser.stack;
    ConsumeDone(r.parser, r.prev, end, ListThen(s, items, end));
    FeedOne(r, end);
  }

  /** White space after a member, and the comma or brace after it; a key that is there already
      changes nothing. */
  lemma AfterMember(r: Running, s: seq<State>, m: OrderedMap, key: string, j: Json, ws: string, c: char)
    requires Healthy(r) && Blank(ws) && c in {',', '}'}
    requires var t := Push(Push(s, InMap(m)), KeyValue("\"" + key + "\"", 2));
      Completed(r, t, j) && Inv(Parser(t, Some(j)), r.prev)
    ensures var q := Feed(r, ws + [c]);
      && q.Running?
      && q.parser == if c == ',' then Parser(Push(Push(s, InMap(Put(m, key, j))), KeyValue("", 0)), None)
                     else Parser(s, Some(JMap(Put(m, key, j).orderedKV)))
  {
    hide Finalize, Printable, Put, MapOk;
    var t := Push(Push(s, InMap(m)), KeyValue("\"" + key + "\"", 2));
    var put := Parser(Push(s, InMap(Put(m, key, j))), None);
    var done := if c == ',' then Parser(Push(put.stack, KeyValue("", 0)), None)
                else Parser(s, Some(JMap(Put(m, key, j).orderedKV)));
    var c0 := if ws == "" then c else ws[0];
    assert ws != "" ==> IsSpace(ws[0]);
    AfterValue(r, t, j, c0);
    EntryStored(s, m, key, j, r.prev, c0);
    if ws == "" {
      assert ws + [c] == [c];
      ConsumeDone(put, r.prev, c, done);
      FeedOne(r, c);
    } else {
      ConsumeDone(put, r.prev, c0, put);
      var r1 := Consume(r.parser, r.prev, c0);
      FeedBlank(r1, ws[1..]);
      var r2 := Feed(r1, ws[1..]);
      ConsumeDone(r2.parser, r2.prev, c, done);
      FeedOne(r2, c);
      FeedConcat(r1, ws[1..], [c]);
      assert (ws + [c])[1..] == ws[1..] + [c];
    }
  }

  lemma EntryStored(s: seq<State>, m: OrderedMap, key: string, j: Json, prev: char, c: char)
    requires Inv(Parser(Push(Push(s, InMap(m)), KeyValue("\"" + key + "\"", 2)), Some(j)), prev)
    ensures var p := Parser(Push(Push(s, InMap(m)), KeyValue("\"" + key + "\"", 2)), Some(j));
      var put := Parser(Push(s, InMap(Put(m, key, j))), None);
      Inv(put, prev) && Consume(p, prev, c) == Consume(put, prev, c)
  {
    var text := "\"" + key + "\"";
    var p := Parser(Push(Push(s, InMap(m)), KeyValue(text, 2)), Some(j));
    assert text[1..|text| - 1] == key;
    ConsumeAgain(p, prev, c, Parser(Push(s, InMap(Put(m, key, j))), None));
  }

  // ---------------------------------------------------------------- arrays

  /** The stack when item k of a list is about to be read. */
  function BeforeItem(s: seq<State>, items: seq<Doc>, k: nat): seq<State>
    requires k <= |items|
  {
    if k == 0 then Push(s, InList([])) else Push(Push(s, InList(Trees(items[..k]))), Placeholder)
  }

  predicate StartsValue(c: char) {
    c in {'{', '[', '"', 't', 'f'}
  }

  lemma ValueStarts(v: Value)
    ensures RenderValue(v) != "" && StartsValue(RenderValue(v)[0])
  {
  }

  /** The first item of a list needs no placeholder pushed beforehand. */
  lemma FirstItem(r: Running, s: seq<State>, text: string)
    requires Healthy(r) && r.Running? && r.parser == Parser(Push(s, InList([])), None)
    requires text != "" && StartsValue(text[0])
    ensures var q := Running(Parser(Push(Push(s, InList([])), Placeholder), None), r.prev);
      Healthy(q) && Feed(r, text) == Feed(q, text)
  {
    var q := Parser(Push(Push(s, InList([])), Placeholder), None);
    ConsumeAgain(r.parser, r.prev, text[0], q);
  }

  /** Reading item k, from the state before it to its value completed. */
  lemma {:induction false} FeedItem(v: Value, k: nat, s: seq<State>, r: Running)
    requires v.Array? && k < |v.items| && Lenient(v)
    requires Healthy(r) && r.Running? && r.parser == Parser(BeforeItem(s, v.items, k), None)
    ensures var d := v.items[k];
      var t := Push(s, InList(Trees(v.items[..k])));
      var q := Feed(r, d.before + RenderValue(d.value));
      Completed(q, t, Tree(d.value)) && Inv(Parser(t, Some(Tree(d.value))), q.prev)
    decreases v, 0, 0
  {
    hide RenderValue, Tree, Trees, Consume, Feed, Printable, Finalize;
    var d := v.items[k];
    assert LenientItem(d);
    var t := Push(s, InList(Trees(v.items[..k])));
    assert k == 0 ==> Trees(v.items[..0]) == [] by { NoTrees(v.items); }
    FeedBlank(r, d.before);
    var r1 := Feed(r, d.before);
    FeedConcat(r, d.before, RenderValue(d.value));
    var r2 := Running(Parser(Push(t, Placeholder), None), r1.prev);
    if k == 0 {
      ValueStarts(d.value);
      FirstItem(r1, s, RenderValue(d.value));
    }
    TreePrintable(d.value);
    FeedValue(d.value, t, r2);
    ReceiverOk(r2, t, Tree(d.value), Feed(r2, RenderValue(d.value)).prev);
  }

  lemma NoTrees(items: seq<Doc>)
    ensures Trees(items[..0]) == []
  {
  }

  /** From item k to the closing bracket. */
  lemma {:induction false} FeedItems(v: Value, k: nat, s: seq<State>, r: Running)
    requires v.Array? && k < |v.items| && Lenient(v)
    requires Healthy(r) && r.Running? && r.parser == Parser(BeforeItem(s, v.items, k), None)
    ensures var q := Feed(r, RenderItems(v.items[k..]) + "]"); q.Running? && q.parser == Parser(s, Some(Tree(v)))
    decreases v, 0, |v.items| - k
  {
    hide Inv, Consume, Feed, RenderValue, Lenient, Printable;
    var d := v.items[k];
    var head := d.before + RenderValue(d.value);
    FeedItem(v, k, s, r);
    ItemIsLenient(v, k);
    var r1 := Feed(r, head);
    TreesPrefix(v.items, k);
    assert v.items[k..][0] == d && v.items[k..][1..] == v.items[k + 1..];
    var c := if k + 1 < |v.items| then ',' else ']';
    AfterItem(r1, s, Trees(v.items[..k]), d.value, d.after, c);
    FeedConcat(r, head, d.after + [c]);
    if k + 1 < |v.items| {
      var tail := RenderItems(v.items[k + 1..]) + "]";
      FeedConcat(r, head + (d.after + [c]), tail);
      assert RenderItems(v.items[k..]) + "]" == head + (d.after + [c]) + tail;
      FeedItems(v, k + 1, s, Feed(r, head + (d.after + [c])));
    } else {
      assert v.items[..k + 1] == v.items;
      assert RenderItems(v.items[k..]) + "]" == head + (d.after + [c]);
    }
  }

  lemma ItemIsLenient(v: Value, k: nat)
    requires v.Array? && k < |v.items| && Lenient(v)
    ensures LenientItem(v.items[k])
  {
  }

  lemma {:induction false} FeedArray(v: Value, s: seq<State>, r: Running)
    requires v.Array? && Lenient(v)
    requires Healthy(r) && r.Running? && r.parser == Parser(Push(s, Placeholder), None)
    ensures var q := Feed(r, RenderValue(v)); q.Running? && q.parser == Parser(s, Some(Tree(v)))
    decreases v, 1
  {
    hide Inv, Consume, Feed, RenderItems, Printable;
    ConsumeDone(r.parser, r.prev, '[', Parser(Push(s, InList([])), None));
    FeedOne(r, '[');
    var r1 := Feed(r, "[");
    if v.items == [] {
      FeedBlank(r1, v.inner);
      FeedConcat(r, "[", v.inner);
      var r2 := Feed(r1, v.inner);
      ConsumeDone(r2.parser, r2.prev, ']', Parser(s, Some(JList([]))));
      FeedOne(r2, ']');
      FeedConcat(r, "[" + v.inner, "]");
    } else {
      assert v.items[0..] == v.items;
      FeedItems(v, 0, s, r1);
      FeedConcat(r, "[", RenderItems(v.items) + "]");
      assert RenderValue(v) == "[" + (RenderItems(v.items) + "]");
    }
  }

  // ---------------------------------------------------------------- objects

  function MapOf(ms: seq<Member>): OrderedMap {
    OrderedMap(set e | e in Entries(ms) :: e.key, Entries(ms))
  }

  /** The stack when member k of a map is about to be read. */
  function BeforeMember(s: seq<State>, ms: seq<Member>, k: nat): seq<State>
    requires k <= |ms|
  {
    if k == 0 then Push(s, InMap(EMPTY_MAP)) else Push(Push(s, InMap(MapOf(ms[..k]))), KeyValue("", 0))
  }

  lemma PutNext(ms: seq<Member>, k: nat)
    requires k < |ms|
    ensures Put(MapOf(ms[..k]), ms[k].key, Tree(ms[k].value.value)) == MapOf(ms[..k + 1])
  {
    hide Tree, Entries;
    EntriesPrefix(ms, k);
    var es, key := Entries(ms[..k]), ms[k].key;
    assert HasKey(es, key) <==> key in MapOf(ms[..k]).keySet;
    if !HasKey(es, key) {
      var e := Entry(key, Tree(ms[k].value.value));
      assert forall x :: x in es + [e] <==> x in es || x == e;
      assert MapOf(ms[..k + 1]).keySet == MapOf(ms[..k]).keySet + {key};
    }
  }

  lemma NoMembers(ms: seq<Member>)
    ensures MapOf(ms[..0]) == EMPTY_MAP
  {
  }

  /** What may stand before a key, and its opening quote, where the map state may have to push the
      key state first. */
  lemma OpenKey(ms: seq<Member>, k: nat, s: seq<State>, r: Running, before: string)
    requires k < |ms| && Healthy(r) && r.Running? && r.parser == Parser(BeforeMember(s, ms, k), None)
    requires MayLead(before) && (Blank(before) || k == 0)
    ensures var q := Feed(r, before + "\"");
      q.Running? && q.parser == Parser(Push(Push(s, InMap(MapOf(ms[..k]))), KeyValue("\"", 0)), None)
  {
    hide Entries, Consume, Feed, MapOf, Inv;
    var m := Push(s, InMap(MapOf(ms[..k])));
    NoMembers(ms);
    if Blank(before) {
      FeedBlank(r, before);
      FeedConcat(r, before, "\"");
      if k == 0 {
        QuoteInMap(Feed(r, before), s);
      } else {
        QuoteOpens(Feed(r, before), m);
      }
    } else {
      var i :| 0 <= i < |before| && before[i] == ',' && Blank(before[..i]) && Blank(before[i + 1..]);
      FeedBlank(r, before[..i]);
      var r1 := Feed(r, before[..i]);
      CommaInMap(r1, s);
      FeedConcat(r, before[..i], ",");
      var r2 := Feed(r1, ",");
      FeedBlank(r2, before[i + 1..]);
      FeedConcat(r, before[..i] + ",", before[i + 1..]);
      QuoteOpens(Feed(r2, before[i + 1..]), m);
      assert before == before[..i] + "," + before[i + 1..];
      FeedConcat(r, before, "\"");
    }
  }

  lemma QuoteOpens(r: Running, m: seq<State>)
    requires Healthy(r) && r.Running? && r.parser == Parser(Push(m, KeyValue("", 0)), None)
    ensures var q := Feed(r, "\""); q.Running? && q.parser == Parser(Push(m, KeyValue("\"", 0)), None)
  {
    ConsumeDone(r.parser, r.prev, '"', Parser(Push(m, KeyValue("\"", 0)), None));
    FeedOne(r, '"');
  }

  lemma QuoteInMap(r: Running, s: seq<State>)
    requires Healthy(r) && r.Running? && r.parser == Parser(Push(s, InMap(EMPTY_MAP)), None)
    ensures var q := Feed(r, "\"");
      q.Running? && q.parser == Parser(Push(Push(s, InMap(EMPTY_MAP)), KeyValue("\"", 0)), None)
  {
    var pushed := Parser(Push(r.parser.stack, KeyValue("", 0)), None);
    ConsumeAgain(r.parser, r.prev, '"', pushed);
    ConsumeDone(pushed, r.prev, '"', Parser(Push(r.parser.stack, KeyValue("\"", 0)), None));
    FeedOne(r, '"');
  }

  lemma CommaInMap(r: Running, s: seq<State>)
    requires Healthy(r) && r.Running? && r.parser == Parser(Push(s, InMap(EMPTY_MAP)), None)
    ensures var q := Feed(r, ",");
      q.Running? && q.parser == Parser(Push(Push(s, InMap(EMPTY_MAP)), KeyValue("", 0)), None)
  {
    ConsumeDone(r.parser, r.prev, ',', Parser(Push(r.parser.stack, KeyValue("", 0)), None));
    FeedOne(r, ',');
  }

  /** White space after a key, and the colon. */
  lemma {:induction false} AfterKey(m: seq<State>, b: string, ws: string, r: Running)
    requires Healthy(r) && r.Running? && r.parser == Parser(Push(m, KeyValue(b, 1)), None) && Blank(ws)
    ensures var q := Feed(r, ws + ":");
      q.Running? && q.parser == Parser(Push(Push(m, KeyValue(b, 2)), Placeholder), None)
    decreases |ws|
  {
    if ws == "" {
      assert ws + ":" == [':'];
      ConsumeDone(r.parser, r.prev, ':', Parser(Push(Push(m, KeyValue(b, 2)), Placeholder), None));
      FeedOne(r, ':');
    } else {
      assert IsSpace(ws[0]);
      ConsumeDone(r.parser, r.prev, ws[0], r.parser);
      assert (ws + ":")[1..] == ws[1..] + ":";
      AfterKey(m, b, ws[1..], Consume(r.parser, r.prev, ws[0]));
    }
  }

  /** Reading the key of member k, its colon and the white space around it. */
  lemma FeedKeyOf(ms: seq<Member>, k: nat, s: seq<State>, r: Running)
    requires k < |ms| && LenientMember(ms[k]) && (Blank(ms[k].before) || k == 0)
    requires Healthy(r) && r.Running? && r.parser == Parser(BeforeMember(s, ms, k), None)
    ensures var m := ms[k];
      var q := Feed(r, m.before + "\"" + m.key + "\"" + m.after + ":");
      var below := Push(Push(s, InMap(MapOf(ms[..k]))), KeyValue("\"" + m.key + "\"", 2));
      q.Running? && q.parser == Parser(Push(below, Placeholder), None)
  {
    hide Inv, Consume, Feed, MapOf, Printable, Entries, Lenient, MayLead;
    var (key, before, after) := (ms[k].key, ms[k].before, ms[k].after);
    var m := Push(s, InMap(MapOf(ms[..k])));
    OpenKey(ms, k, s, r, before);
    assert ("\"" + key)[1..] == key;
    FeedKey(Feed(r, before + "\""), m, "\"", key);
    FeedConcat(r, before + "\"", key + "\"");
    AfterKey(m, "\"" + key + "\"", after, Feed(r, before + "\"" + (key + "\"")));
    FeedConcat(r, before + "\"" + (key + "\""), after + ":");
    assert before + "\"" + key + "\"" + after + ":" == before + "\"" + (key + "\"") + (after + ":");
  }

  lemma {:induction false} FeedMember(v: Value, k: nat, s: seq<State>, r: Running)
    requires v.Object? && k < |v.members| && Lenient(v)
    requires Healthy(r) && r.Running? && r.parser == Parser(BeforeMember(s, v.members, k), None)
    ensures var m := v.members[k];
      var d := m.value;
      var t := Push(Push(s, InMap(MapOf(v.members[..k]))), KeyValue("\"" + m.key + "\"", 2));
      var q := Feed(r, m.before + "\"" + m.key + "\"" + m.after + ":" + (d.before + RenderValue(d.value)));
      Completed(q, t, Tree(d.value)) && Inv(Parser(t, Some(Tree(d.value))), q.prev)
    decreases v, 0, 0
  {
    hide RenderValue, Tree, Entries, MapOf, Consume, Feed, Printable, Finalize;
    var m := v.members[k];
    var d := m.value;
    assert LenientMember(m);
    var t := Push(Push(s, InMap(MapOf(v.members[..k]))), KeyValue("\"" + m.key + "\"", 2));
    var head := m.before + "\"" + m.key + "\"" + m.after + ":";
    FeedKeyOf(v.members, k, s, r);
    var r1 := Feed(r, head);
    FeedBlank(r1, d.before);
    var r2 := Feed(r1, d.before);
    TreePrintable(d.value);
    FeedValue(d.value, t, r2);
    ReceiverOk(r2, t, Tree(d.value), Feed(r2, RenderValue(d.value)).prev);
    FeedConcat(r1, d.before, RenderValue(d.value));
    FeedConcat(r, head, d.before + RenderValue(d.value));
  }

  lemma {:induction false} FeedMembers(v: Value, k: nat, s: seq<State>, r: Running)
    requires v.Object? && k < |v.members| && Lenient(v)
    requires Healthy(r) && r.Running? && r.parser == Parser(BeforeMember(s, v.members, k), None)
    ensures var q := Feed(r, RenderMembers(v.members[k..]) + "}"); q.Running? && q.parser == Parser(s, Some(Tree(v)))
    decreases v, 0, |v.members| - k
  {
    hide Inv, Consume, Feed, RenderValue, Lenient, Printable, MapOf, Entries;
    var m := v.members[k];
    var head := m.before + "\"" + m.key + "\"" + m.after + ":" + (m.value.before + RenderValue(m.value.value));
    FeedMember(v, k, s, r);
    MemberSpaces(v, k);
    var r1 := Feed(r, head);
    PutNext(v.members, k);
    assert v.members[k..][0] == m && v.members[k..][1..] == v.members[k + 1..];
    var c := if k + 1 < |v.members| then ',' else '}';
    var after := m.value.after;
    AfterMember(r1, s, MapOf(v.members[..k]), m.key, Tree(m.value.value), after, c);
    FeedConcat(r, head, after + [c]);
    RenderedMember(m);
    if k + 1 < |v.members| {
      var tail := RenderMembers(v.members[k + 1..]) + "}";
      FeedConcat(r, head + (after + [c]), tail);
      assert RenderMembers(v.members[k..]) + "}" == head + (after + [c]) + tail;
      FeedMembers(v, k + 1, s, Feed(r, head + (after + [c])));
    } else {
      assert v.members[..k + 1] == v.members;
      assert RenderMembers(v.members[k..]) + "}" == head + (after + [c]);
      MapOfAll(v);
    }
  }

  lemma MemberSpaces(v: Value, k: nat)
    requires v.Object? && k < |v.members| && Lenient(v)
    ensures Blank(v.members[k].value.after)
  {
    assert LenientMember(v.members[k]);
  }

  lemma RenderedMember(m: Member)
    ensures RenderMember(m)
            == m.before + "\"" + m.key + "\"" + m.after + ":"
               + (m.value.before + RenderValue(m.value.value)) + m.value.after
  {
  }

  lemma MapOfAll(v: Value)
    requires v.Object?
    ensures Tree(v) == JMap(MapOf(v.members).orderedKV)
  {
  }

  lemma {:induction false} FeedObject(v: Value, s: seq<State>, r: Running)
    requires v.Object? && Lenient(v)
    requires Healthy(r) && r.Running? && r.parser == Parser(Push(s, Placeholder), None)
    ensures var q := Feed(r, RenderValue(v)); q.Running? && q.parser == Parser(s, Some(Tree(v)))
    decreases v, 1
  {
    hide Inv, Consume, Feed, RenderMembers, Printable;
    ConsumeDone(r.parser, r.prev, '{', Parser(Push(s, InMap(EMPTY_MAP)), None));
    FeedOne(r, '{');
    var r1 := Feed(r, "{");
    if v.members == [] {
      FeedBlank(r1, v.inner);
      FeedConcat(r, "{", v.inner);
      var r2 := Feed(r1, v.inner);
      ConsumeDone(r2.parser, r2.prev, '}', Parser(s, Some(JMap([]))));
      FeedOne(r2, '}');
      FeedConcat(r, "{" + v.inner, "}");
    } else {
      assert v.members[0..] == v.members;
      FeedMembers(v, 0, s, r1);
      FeedConcat(r, "{", RenderMembers(v.members) + "}");
      assert RenderValue(v) == "{" + (RenderMembers(v.members) + "}");
    }
  }

  // ---------------------------------------------------------------- values and documents

  /** Reading a well-formed value, on any stack, completes the value it stands for. */
  lemma {:induction false} FeedValue(v: Value, s: seq<State>, r: Running)
    requires Lenient(v) && Healthy(r) && r.Running? && r.parser == Parser(Push(s, Placeholder), None)
    ensures Completed(Feed(r, RenderValue(v)), s, Tree(v))
    decreases v, 2
  {
    match v
    case Object(_, _) => FeedObject(v, s, r);
    case Array(_, _) => FeedArray(v, s, r);
    case Quoted(text) => FeedString(r, s, text);
    case Flag(b) => FeedBool(r, s, b);
  }

  lemma Starts()
    ensures Healthy(Running(START, ' ')) && START == Parser(Push([], Placeholder), None)
  {
  }

  /** White space after the last value: a boolean needs it, any other value is read already. */
  lemma DocumentEnds(r: Running, j: Json, ws: string)
    requires Healthy(r) && Completed(r, [], j) && Blank(ws) && Inv(Parser([], Some(j)), r.prev)
    ensures Outcome(Feed(r, ws)) == if r.parser.stack != [] && ws == "" then Rejected(UnfinishedInput) else Accepted(j)
  {
    hide Inv, Consume, Outcome;
    if ws == "" {
      EndOutcome(r, j);
    } else {
      assert IsSpace(ws[0]);
      AfterValue(r, [], j, ws[0]);
      SpaceAtEnd(j, r.prev, ws[0]);
      SpacesAtEnd(Consume(r.parser, r.prev, ws[0]), j, ws[1..]);
      EndOutcome(Feed(r, ws), j);
    }
  }

  lemma EndOutcome(r: Running, j: Json)
    requires Healthy(r) && Completed(r, [], j)
    ensures Outcome(r) == if r.parser.stack != [] then Rejected(UnfinishedInput) else Accepted(j)
  {
    hide Printable;
  }

  lemma SpaceAtEnd(j: Json, prev: char, c: char)
    requires Inv(Parser([], Some(j)), prev) && IsSpace(c)
    ensures Consume(Parser([], Some(j)), prev, c) == Running(Parser([], Some(j)), c)
  {
    hide Printable;
    ConsumeDone(Parser([], Some(j)), prev, c, Parser([], Some(j)));
  }

  lemma {:induction false} SpacesAtEnd(r: Running, j: Json, ws: string)
    requires Healthy(r) && r.Running? && r.parser == Parser([], Some(j)) && Blank(ws)
    ensures var q := Feed(r, ws); q.Running? && q.parser == r.parser
    decreases |ws|
  {
    if ws != "" {
      assert IsSpace(ws[0]);
      ConsumeDone(r.parser, r.prev, ws[0], r.parser);
      SpacesAtEnd(Consume(r.parser, r.prev, ws[0]), j, ws[1..]);
    }
  }

  lemma DocumentRead(d: Doc)
    requires Blank(d.before) && Lenient(d.value) && Blank(d.after)
    ensures Parse(Render(d))
            == if d.value.Flag? && d.after == "" then Rejected(UnfinishedInput) else Accepted(Tree(d.value))
  {
    hide Inv, Consume, Feed, Printable, RenderValue, Tree, Outcome;
    var r := Running(START, ' ');
    Starts();
    FeedBlank(r, d.before);
    var r1 := Feed(r, d.before);
    FeedValue(d.value, [], r1);
    var r2 := Feed(r1, RenderValue(d.value));
    TreePrintable(d.value);
    ReceiverOk(r1, [], Tree(d.value), r2.prev);
    FlagWaits(d.value, r1);
    DocumentEnds(r2, Tree(d.value), d.after);
    FeedConcat(r, d.before, RenderValue(d.value));
    FeedConcat(r, d.before + RenderValue(d.value), d.after);
  }

  /** Completeness: every well-formed text is accepted, as the tree it stands for, whatever white
      space stands between its tokens; except that a boolean that is the whole text needs white space
      after it. */
  lemma DocumentParses(d: Doc)
    requires WellFormed(d)
    ensures Parse(Render(d))
            == if d.value.Flag? && d.after == "" then Rejected(UnfinishedInput) else Accepted(Tree(d.value))
  {
    WellFormedIsLenient(d.value);
    DocumentRead(d);
  }

  lemma FlagWaits(v: Value, r: Running)
    requires Lenient(v) && Healthy(r) && r.Running? && r.parser == Parser(Push([], Placeholder), None)
    ensures var q := Feed(r, RenderValue(v)); q.Running? && (q.parser.stack != [] <==> v.Flag?)
  {
    hide Inv, Consume, Feed, Printable;
    FeedValue(v, [], r);
    if v.Flag? {
      FeedBool(r, [], v.flag);
    }
  }
}
