/** The texts of the grammar of RFC 8259 (sections 2 to 5 and 7), as far as the parser's values go:
    objects, arrays, strings and booleans, with any white space around every token. */
module JsonGrammar {
  import opened OrderedJson

  /** Section 2: space, tab, line feed, carriage return. */
  predicate IsSpace(c: char) {
    c in {' ', '\t', '\n', '\r'}
  }

  predicate Blank(s: string) {
    forall i :: 0 <= i < |s| ==> IsSpace(s[i])
  }

  /** A value with the white space before and after it; `inner` is what an empty object or array holds. */
  datatype Doc = Doc(before: string, value: Value, after: string)

  datatype Value =
    | Object(inner: string, members: seq<Member>)
    | Array(inner: string, items: seq<Doc>)
    | Quoted(text: string)
    | Flag(flag: bool)

  datatype Member = Member(before: string, key: string, after: string, value: Doc)

  // ---------------------------------------------------------------- texts

  function Render(d: Doc): string
    decreases d, 1
  {
    d.before + RenderValue(d.value) + d.after
  }

  function RenderValue(v: Value): string
    decreases v, 1
  {
    match v
    case Object(inner, members) => "{" + (if members == [] then inner else RenderMembers(members)) + "}"
    case Array(inner, items) => "[" + (if items == [] then inner else RenderItems(items)) + "]"
    case Quoted(text) => "\"" + text + "\""
    case Flag(flag) => if flag then "true" else "false"
  }

  function RenderItems(items: seq<Doc>): string
    requires items != []
    decreases items, 0
  {
    Render(items[0]) + if |items| > 1 then "," + RenderItems(items[1..]) else ""
  }

  function RenderMembers(ms: seq<Member>): string
    requires ms != []
    decreases ms, 0
  {
    RenderMember(ms[0]) + if |ms| > 1 then "," + RenderMembers(ms[1..]) else ""
  }

  function RenderMember(m: Member): string
    decreases m, 2
  {
    m.before + "\"" + m.key + "\"" + m.after + ":" + Render(m.value)
  }

  // ---------------------------------------------------------------- trees

  function Tree(v: Value): Json
    decreases v, 1
  {
    match v
    case Object(_, members) => JMap(Entries(members))
    case Array(_, items) => JList(Trees(items))
    case Quoted(text) => JString(text)
    case Flag(flag) => JBool(flag)
  }

  function Trees(items: seq<Doc>): (ts: seq<Json>)
    ensures |ts| == |items|
    decreases items, 0
  {
    if items == [] then [] else Trees(items[..|items| - 1]) + [Tree(items[|items| - 1].value)]
  }

  predicate HasKey(es: seq<Entry>, key: string) {
    exists i :: 0 <= i < |es| && es[i].key == key
  }

  /** Of members with the same key the first one counts. */
  function Entries(ms: seq<Member>): seq<Entry>
    decreases ms, 0
  {
    if ms == [] then [] else
      var es := Entries(ms[..|ms| - 1]);
      var m := ms[|ms| - 1];
      if HasKey(es, m.key) then es else es + [Entry(m.key, Tree(m.value.value))]
  }

  // ---------------------------------------------------------------- what may be written

  /** Only white space between the tokens; texts and keys that can stand between quotes. */
  predicate WellFormed(d: Doc)
    decreases d, 1
  {
    Blank(d.before) && Blank(d.after) && WellFormedValue(d.value)
  }

  predicate WellFormedValue(v: Value)
    decreases v, 0
  {
    match v
    case Object(inner, members) => Blank(inner) && forall i :: 0 <= i < |members| ==> WellFormedMember(members[i])
    case Array(inner, items) => Blank(inner) && forall i :: 0 <= i < |items| ==> WellFormed(items[i])
    case Quoted(text) => Quotable(text)
    case Flag(_) => true
  }

  predicate WellFormedMember(m: Member)
    decreases m, 2
  {
    Blank(m.before) && Blank(m.after) && Quotable(m.key) && WellFormed(m.value)
  }

  // ---------------------------------------------------------------- what the parser lets pass

  /** After an item of an array any text may stand up to the comma or bracket; a boolean has to be
      ended by white space or a brace first. */
  predicate MayFollow(v: Value, after: string) {
    && ',' !in after && ']' !in after
    && (v.Flag? && after != "" ==> IsSpace(after[0]) || after[0] == '}')
  }

  /** One comma may stand before the first member of an object. */
  predicate MayLead(before: string) {
    Blank(before) || exists i :: 0 <= i < |before| && before[i] == ',' && Blank(before[..i]) && Blank(before[i + 1..])
  }

  predicate Lenient(v: Value)
    decreases v, 0
  {
    match v
    case Object(inner, members) =>
      && Blank(inner)
      && forall i :: 0 <= i < |members| ==> LenientMember(members[i]) && (Blank(members[i].before) || i == 0)
    case Array(inner, items) => Blank(inner) && forall i :: 0 <= i < |items| ==> LenientItem(items[i])
    case Quoted(text) => Quotable(text)
    case Flag(_) => true
  }

  predicate LenientItem(d: Doc)
    decreases d, 1
  {
    Blank(d.before) && Lenient(d.value) && MayFollow(d.value, d.after)
  }

  predicate LenientMember(m: Member)
    decreases m, 2
  {
    && MayLead(m.before) && Blank(m.after) && Quotable(m.key)
    && Blank(m.value.before) && Lenient(m.value.value) && Blank(m.value.after)
  }

  /** A whole text: a boolean needs white space after it. */
  predicate LenientDocument(d: Doc) {
    Blank(d.before) && Lenient(d.value) && Blank(d.after) && (d.value.Flag? ==> d.after != "")
  }

  lemma {:induction false} WellFormedIsLenient(v: Value)
    requires WellFormedValue(v)
    ensures Lenient(v)
    decreases v
  {
    match v
    case Object(_, members) =>
      forall i | 0 <= i < |members|
        ensures LenientMember(members[i]) && Blank(members[i].before)
      {
        assert WellFormedMember(members[i]) && WellFormed(members[i].value);
        WellFormedIsLenient(members[i].value.value);
      }
    case Array(_, items) =>
      forall i | 0 <= i < |items|
        ensures LenientItem(items[i])
      {
        assert WellFormed(items[i]);
        WellFormedIsLenient(items[i].value);
        BlankMayFollow(items[i].value, items[i].after);
      }
    case _ =>
  }

  lemma BlankMayFollow(v: Value, after: string)
    requires Blank(after)
    ensures MayFollow(v, after)
  {
  }

  // ---------------------------------------------------------------- trees of such texts

  lemma {:induction false} TreePrintable(v: Value)
    requires Lenient(v)
    ensures Printable(Tree(v))
    decreases v, 1
  {
    match v
    case Object(_, members) => EntriesPrintable(members);
    case Array(_, items) => TreesPrintable(items);
    case _ =>
  }

  lemma {:induction false} TreesPrintable(items: seq<Doc>)
    requires forall i :: 0 <= i < |items| ==> LenientItem(items[i])
    ensures Printable(JList(Trees(items)))
    decreases items, 0
  {
    if items != [] {
      TreesPrintable(items[..|items| - 1]);
      TreePrintable(items[|items| - 1].value);
    }
  }

  lemma {:induction false} EntriesPrintable(ms: seq<Member>)
    requires forall i :: 0 <= i < |ms| ==> LenientMember(ms[i])
    ensures Printable(JMap(Entries(ms)))
    decreases ms, 0
  {
    if ms != [] {
      EntriesPrintable(ms[..|ms| - 1]);
      assert LenientMember(ms[|ms| - 1]);
      TreePrintable(ms[|ms| - 1].value.value);
    }
  }

  lemma TreesPrefix(items: seq<Doc>, k: nat)
    requires k < |items|
    ensures Trees(items[..k + 1]) == Trees(items[..k]) + [Tree(items[k].value)]
  {
    assert items[..k + 1][..k] == items[..k];
  }

  lemma EntriesPrefix(ms: seq<Member>, k: nat)
    requires k < |ms|
    ensures var es := Entries(ms[..k]);
      Entries(ms[..k + 1])
      == if HasKey(es, ms[k].key) then es else es + [Entry(ms[k].key, Tree(ms[k].value.value))]
  {
    assert ms[..k + 1][..k] == ms[..k];
  }
}
