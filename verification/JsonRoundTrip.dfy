/** Parsing undoes printing: the printer's text is one of the grammar's. */
module JsonRoundTrip {
  import opened Wrappers
  import opened OrderedJson
  import opened JsonPrinter
  import opened JsonGrammar
  import opened JsonAutomaton
  import opened JsonParsing
  import opened JsonParsesGrammar

  // ---------------------------------------------------------------- the printer's layout

  function NewLine(indent: nat): string {
    "\n" + Indent(indent)
  }

  /** The white space that the printer puts around the tokens of a value. */
  function Layout(j: Json, indent: nat): Value
    decreases j, 1
  {
    match j
    case JMap(es) =>
      Object("", seq(|es|, i requires 0 <= i < |es| =>
        LayoutEntry(es[i], indent + 1, if i == |es| - 1 then NewLine(indent) else "")))
    case JList(items) =>
      Array("", seq(|items|, i requires 0 <= i < |items| =>
        Doc(NewLine(indent + 1), Layout(items[i], indent + 1), if i == |items| - 1 then NewLine(indent) else "")))
    case JString(text) => Quoted(text)
    case JBool(flag) => Flag(flag)
  }

  function LayoutEntry(e: Entry, indent: nat, after: string): Member
    decreases e, 2
  {
    Member(NewLine(indent), e.key, "", Doc(" ", Layout(e.value, indent), after))
  }

  lemma {:induction false} IndentBlank(n: nat)
    ensures Blank(Indent(n)) && Blank(NewLine(n))
  {
    if n > 0 {
      IndentBlank(n - 1);
    }
  }

  lemma LayoutOfItems(j: Json, indent: nat)
    requires j.JList?
    ensures var v := Layout(j, indent);
      && v.Array? && v.inner == "" && |v.items| == |j.items|
      && forall i :: 0 <= i < |j.items| ==>
           v.items[i] == Doc(NewLine(indent + 1), Layout(j.items[i], indent + 1),
                             if i == |j.items| - 1 then NewLine(indent) else "")
  {
  }

  lemma LayoutOfEntries(j: Json, indent: nat)
    requires j.JMap?
    ensures var v := Layout(j, indent);
      && v.Object? && v.inner == "" && |v.members| == |j.entries|
      && forall i :: 0 <= i < |j.entries| ==>
           v.members[i] == LayoutEntry(j.entries[i], indent + 1, if i == |j.entries| - 1 then NewLine(indent) else "")
  {
  }

  lemma {:induction false} LayoutRenders(j: Json, indent: nat)
    ensures RenderValue(Layout(j, indent)) == Text(j, indent)
    decreases j, 1
  {
    match j
    case JMap(es) =>
      hide Layout, RenderValue, Text, RenderMembers, EntriesText;
      LayoutOfEntries(j, indent);
      if es != [] {
        LayoutMembers(j, indent, 0);
        assert es[0..] == es && Layout(j, indent).members[0..] == Layout(j, indent).members;
      }
      RenderedObject(Layout(j, indent), j, indent);
    case JList(items) =>
      hide Layout, RenderValue, Text, RenderItems, ItemsText;
      LayoutOfItems(j, indent);
      if items != [] {
        LayoutItems(j, indent, 0);
        assert items[0..] == items && Layout(j, indent).items[0..] == Layout(j, indent).items;
      }
      RenderedArray(Layout(j, indent), j, indent);
    case _ =>
  }

  lemma RenderedArray(v: Value, j: Json, indent: nat)
    requires v.Array? && j.JList? && v.inner == "" && |v.items| == |j.items|
    requires v.items != [] ==> RenderItems(v.items) == ItemsText(j.items, indent + 1) + NewLine(indent)
    ensures RenderValue(v) == Text(j, indent)
  {
    hide RenderItems, ItemsText;
  }

  lemma RenderedObject(v: Value, j: Json, indent: nat)
    requires v.Object? && j.JMap? && v.inner == "" && |v.members| == |j.entries|
    requires v.members != [] ==> RenderMembers(v.members) == EntriesText(j.entries, indent + 1) + NewLine(indent)
    ensures RenderValue(v) == Text(j, indent)
  {
    hide RenderMembers, EntriesText;
  }

  lemma {:induction false} LayoutItems(j: Json, indent: nat, k: nat)
    requires j.JList? && k < |j.items| == |Layout(j, indent).items|
    ensures RenderItems(Layout(j, indent).items[k..]) == ItemsText(j.items[k..], indent + 1) + NewLine(indent)
    decreases j, 0, |j.items| - k
  {
    hide Layout, RenderValue, Text;
    LayoutOfItems(j, indent);
    var ds, items := Layout(j, indent).items, j.items;
    LayoutRenders(items[k], indent + 1);
    assert ds[k..][0] == ds[k] && ds[k..][1..] == ds[k + 1..];
    assert items[k..][0] == items[k] && items[k..][1..] == items[k + 1..];
    if k + 1 < |items| {
      LayoutItems(j, indent, k + 1);
    } else {
      assert ItemsText(items[k + 1..], indent + 1) == "";
    }
  }

  lemma {:induction false} LayoutMembers(j: Json, indent: nat, k: nat)
    requires j.JMap? && k < |j.entries| == |Layout(j, indent).members|
    ensures RenderMembers(Layout(j, indent).members[k..]) == EntriesText(j.entries[k..], indent + 1) + NewLine(indent)
    decreases j, 0, |j.entries| - k
  {
    hide Layout, RenderMember, EntryText, LayoutEntry;
    LayoutOfEntries(j, indent);
    var ms, es := Layout(j, indent).members, j.entries;
    LayoutRenders(es[k].value, indent + 1);
    assert ms[k..][0] == ms[k] && ms[k..][1..] == ms[k + 1..];
    assert es[k..][0] == es[k] && es[k..][1..] == es[k + 1..];
    MemberText(es[k], indent + 1, if k == |es| - 1 then NewLine(indent) else "");
    if k + 1 < |es| {
      LayoutMembers(j, indent, k + 1);
    } else {
      assert EntriesText(es[k + 1..], indent + 1) == "";
    }
  }

  lemma MemberText(e: Entry, indent: nat, after: string)
    requires RenderValue(Layout(e.value, indent)) == Text(e.value, indent)
    ensures RenderMember(LayoutEntry(e, indent, after)) == EntryText(e, indent) + after
  {
  }

  /** The layout of a printable tree is well-formed and stands for that tree. */
  lemma {:induction false} LayoutStandsFor(j: Json, indent: nat)
    requires Printable(j)
    ensures WellFormedValue(Layout(j, indent)) && Tree(Layout(j, indent)) == j
    decreases j, 1
  {
    match j
    case JMap(es) =>
      hide Layout, WellFormedMember, Entries;
      LayoutOfEntries(j, indent);
      EntriesStandFor(j, indent, |es|);
      assert Layout(j, indent).members[..|es|] == Layout(j, indent).members && es[..|es|] == es;
    case JList(items) =>
      hide Layout, WellFormed, Trees;
      LayoutOfItems(j, indent);
      ItemsStandFor(j, indent, |items|);
      assert Layout(j, indent).items[..|items|] == Layout(j, indent).items && items[..|items|] == items;
    case _ =>
  }

  lemma {:induction false} ItemsStandFor(j: Json, indent: nat, k: nat)
    requires j.JList? && k <= |j.items| == |Layout(j, indent).items| && Printable(j)
    ensures var ds := Layout(j, indent).items;
      Trees(ds[..k]) == j.items[..k] && forall i :: 0 <= i < k ==> WellFormed(ds[i])
    decreases j, 0, k
  {
    hide Layout, WellFormedValue, Tree, Trees, WellFormed, Printable;
    LayoutOfItems(j, indent);
    var ds := Layout(j, indent).items;
    NoTrees(ds);
    if k > 0 {
      ItemsStandFor(j, indent, k - 1);
      ItemOf(j, k - 1);
      LayoutStandsFor(j.items[k - 1], indent + 1);
      TreesPrefix(ds, k - 1);
      ItemWellFormed(j.items[k - 1], indent, if k == |j.items| then NewLine(indent) else "") by { IndentBlank(indent); }
      assert j.items[..k - 1] + [j.items[k - 1]] == j.items[..k];
    }
  }

  lemma ItemOf(j: Json, k: nat)
    requires j.JList? && Printable(j) && k < |j.items|
    ensures Printable(j.items[k])
  {
  }

  lemma ItemWellFormed(j: Json, indent: nat, after: string)
    requires WellFormedValue(Layout(j, indent + 1)) && Blank(after)
    ensures WellFormed(Doc(NewLine(indent + 1), Layout(j, indent + 1), after))
  {
    hide Layout, WellFormedValue;
    IndentBlank(indent + 1);
  }

  lemma {:induction false} EntriesStandFor(j: Json, indent: nat, k: nat)
    requires j.JMap? && k <= |j.entries| == |Layout(j, indent).members| && Printable(j)
    ensures var ms := Layout(j, indent).members;
      Entries(ms[..k]) == j.entries[..k] && forall i :: 0 <= i < k ==> WellFormedMember(ms[i])
    decreases j, 0, k
  {
    hide Layout, WellFormedValue, Tree, WellFormedMember, Entries, Printable, HasKey, LayoutEntry;
    LayoutOfEntries(j, indent);
    var ms := Layout(j, indent).members;
    NoMembers(ms);
    if k > 0 {
      var e := j.entries[k - 1];
      EntriesStandFor(j, indent, k - 1);
      EntryOf(j, k - 1);
      LayoutStandsFor(e.value, indent + 1);
      EntriesPrefix(ms, k - 1);
      EntryWellFormed(e, indent + 1, if k == |j.entries| then NewLine(indent) else "") by { IndentBlank(indent); }
      assert j.entries[..k - 1] + [e] == j.entries[..k] && e == Entry(e.key, e.value);
      EntryLaidOut(e, indent + 1, if k == |j.entries| then NewLine(indent) else "");
    }
  }

  lemma EntryOf(j: Json, k: nat)
    requires j.JMap? && Printable(j) && k < |j.entries|
    ensures PrintableEntry(j.entries[k]) && !HasKey(j.entries[..k], j.entries[k].key)
  {
  }

  lemma EntryLaidOut(e: Entry, indent: nat, after: string)
    ensures var m := LayoutEntry(e, indent, after); m.key == e.key && m.value.value == Layout(e.value, indent)
  {
  }

  lemma EntryWellFormed(e: Entry, indent: nat, after: string)
    requires Quotable(e.key) && WellFormedValue(Layout(e.value, indent)) && Blank(after)
    ensures WellFormedMember(LayoutEntry(e, indent, after))
  {
    hide Layout, WellFormedValue, Quotable;
    IndentBlank(indent);
    assert WellFormed(Doc(" ", Layout(e.value, indent), after));
  }

  // ---------------------------------------------------------------- the round trip

  lemma FlagOfBool(j: Json)
    ensures Layout(j, 0).Flag? <==> j.JBool?
  {
  }

  /** Parsing undoes printing exactly for the printable trees: distinct keys per map, and keys and
      strings that can stand between quotes. */
  lemma ParseUndoesPrint(j: Json)
    ensures Parse(JSONString(j)) == Accepted(j) <==> Printable(j)
  {
    hide Layout, WellFormedValue, RenderValue, Tree, Text, Printable;
    if Printable(j) {
      LayoutStandsFor(j, 0);
      LayoutRenders(j, 0);
      FlagOfBool(j);
      var d := Doc("", Layout(j, 0), "\n");
      DocumentParses(d);
      assert Render(d) == JSONString(j);
    }
  }

  /** Whatever text was accepted, printing its tree and parsing that again gives the same tree. */
  lemma ReparseIsStable(input: string)
    requires Parse(input).Accepted?
    ensures Parse(JSONString(Parse(input).tree)) == Parse(input)
  {
    ParseUndoesPrint(Parse(input).tree);
  }

  /** Without the printer's final newline, exactly the printable values other than booleans are read back. */
  lemma ParseUndoesText(j: Json)
    ensures Parse(Text(j, 0)) == Accepted(j) <==> Printable(j) && !j.JBool?
  {
    hide Layout, WellFormedValue, RenderValue, Tree, Text, Printable;
    if Printable(j) {
      LayoutStandsFor(j, 0);
      LayoutRenders(j, 0);
      FlagOfBool(j);
      var d := Doc("", Layout(j, 0), "");
      DocumentParses(d);
      assert Render(d) == Text(j, 0);
    }
  }

  /** A boolean that ends the input is refused; a newline after it makes it a document. */
  lemma BooleanNeedsNewline()
    ensures Parse("true") == Rejected(UnfinishedInput) && Parse("true\n") == Accepted(JBool(true))
  {
    hide Parse;
    DocumentParses(Doc("", Flag(true), ""));
    DocumentParses(Doc("", Flag(true), "\n"));
    assert RenderValue(Flag(true)) == "true";
    assert Render(Doc("", Flag(true), "")) == "true" && Render(Doc("", Flag(true), "\n")) == "true\n";
  }

  // ---------------------------------------------------------------- texts outside the grammar

  /** A missing comma loses an item and is not reported. */
  lemma MissingCommaIsAccepted()
    ensures Parse("[\"a\" \"b\"]") == Accepted(JList([JString("a")]))
  {
    hide Parse;
    var item := Doc("", Quoted("a"), " \"b\"");
    var d := Doc("", Array("", [item]), "");
    MissingComma(item);
    DocumentRead(d);
    RenderedAlone(item);
    assert RenderValue(d.value) == "[\"a\" \"b\"]" == Render(d);
  }

  lemma MissingComma(item: Doc)
    requires item == Doc("", Quoted("a"), " \"b\"")
    ensures LenientItem(item) && Trees([item]) == [JString("a")]
  {
  }

  lemma RenderedAlone(item: Doc)
    requires item == Doc("", Quoted("a"), " \"b\"")
    ensures RenderItems([item]) == "\"a\" \"b\""
  {
    assert RenderValue(item.value) == "\"a\"";
    assert Render(item) == "\"a\" \"b\"";
  }

  /** A comma before the first member is not reported either. */
  lemma LeadingCommaIsAccepted()
    ensures Parse("{,\"a\":\"b\"}") == Accepted(JMap([Entry("a", JString("b"))]))
  {
    hide Parse;
    var m := Member(",", "a", "", Doc("", Quoted("b"), ""));
    var d := Doc("", Object("", [m]), "");
    assert ","[..0] == "" && ","[1..] == "" && ","[0] == ',';
    assert MayLead(",") && LenientMember(m);
    assert Entries([m][..0]) == [] && Entries([m]) == [Entry("a", JString("b"))];
    DocumentRead(d);
    assert RenderMember(m) == ",\"a\":\"b\"";
    assert RenderMembers([m]) == RenderMember(m);
    assert RenderValue(d.value) == "{,\"a\":\"b\"}" == Render(d);
  }

  /** Section 7 of RFC 8259 lets a string end in an escaped backslash; the parser takes its closing
      quote for an escaped one. */
  lemma EscapedBackslashIsRefused()
    ensures Parse("\"\\\\\"") == Rejected(UnfinishedInput)
  {
    hide Inv, Consume, Feed;
    var r := Running(START, ' ');
    Starts();
    assert "\"" + ['\\'] == "\"\\" && "\"\\" + ['\\'] == "\"\\\\" && "\"\\\\" + ['"'] == "\"\\\\\"";
    Opens(r);
    var r1 := Feed(r, "\"");
    StaysOpen(r1, "\"", '\\');
    var r2 := Feed(r1, "\\");
    StaysOpen(r2, "\"\\", '\\');
    var r3 := Feed(r2, "\\");
    StaysOpen(r3, "\"\\\\", '"');
    FeedConcat(r, "\"", "\\");
    FeedConcat(r, "\"\\", "\\");
    FeedConcat(r, "\"\\\\", "\"");
    assert "\"" + "\\" == "\"\\" && "\"\\" + "\\" == "\"\\\\" && "\"\\\\" + "\"" == "\"\\\\\"";
  }

  lemma Opens(r: Running)
    requires Healthy(r) && r.Running? && r.parser == START
    ensures Feed(r, "\"") == Running(Parser(Push([], Single("\"", true)), None), '"')
  {
    var q := Parser(Push([], Single("", false)), None);
    ConsumeAgain(START, r.prev, '"', q);
    ConsumeDone(q, r.prev, '"', Parser(Push([], Single("\"", true)), None));
    FeedOne(r, '"');
  }

  lemma StaysOpen(r: Running, b: string, c: char)
    requires Healthy(r) && r.Running? && r.parser == Parser(Push([], Single(b, true)), None) && b != ""
    requires c == '"' ==> r.prev == '\\'
    ensures Feed(r, [c]) == Running(Parser(Push([], Single(b + [c], true)), None), c)
  {
    ConsumeDone(r.parser, r.prev, c, Parser(Push([], Single(b + [c], true)), None));
    FeedOne(r, c);
  }
}
